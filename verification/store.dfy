/** The `.kiwi` directory as a keyed record store: `Kiwi.is_project?` and
    the class methods `Issue.[]`, `Issue.find`, `Issue.all` and
    `Issue#save`, plus the exact-then-prefix resolution the commands share.

    The directory is abstracted to whether it exists and a finite map from
    file name to the record stored in that file. The order in which the
    file system enumerates the directory is not fixed by the program, so it
    is a parameter, `listing`: any duplicate-free enumeration of the file
    names. */
module Store {
  import opened Wrappers
  import opened Text
  import opened Issues

  /** What an operation can fail with: a blank description, a lookup that
      found nothing, or a file-system error. */
  datatype Error = ValidationError | NotFound | IOFailure

  /** The project directory: whether it exists, and its files by name. */
  datatype Workspace = Workspace(present: bool, records: map<string, Issue>)

  /** No project directory at all. */
  const Untracked := Workspace(false, map[])

  /** Names that, joined to the directory path, denote a directory rather
      than a record file: the project directory itself (`""`, `"."`) or its
      parent, the working directory (`".."`). */
  predicate IsDirectoryName(name: string)
  {
    name == "" || name == "." || name == ".."
  }

  predicate IsHexDigit(c: char)
  {
    '0' <= c <= '9' || 'a' <= c <= 'f'
  }

  /** The shape of the ids `Kiwi.guid` produces: a lower-case hexadecimal
      SHA-1 digest, 40 digits long. */
  predicate IsGuid(name: string)
  {
    |name| == 40 && forall i :: 0 <= i < |name| ==> IsHexDigit(name[i])
  }

  /** A name that is a file directly inside the directory and that the glob
      `*` enumerates: non-empty, without `/`, not starting with `.`. No
      directory name is one. */
  predicate IsPlainName(name: string)
  {
    |name| > 0 && name[0] != '.' && '/' !in name
  }

  /** Every generated id is a plain name. */
  lemma GuidIsPlain(name: string)
    requires IsGuid(name)
    ensures IsPlainName(name) && !IsDirectoryName(name)
  {
  }

  /** What every reachable workspace satisfies: an absent directory holds
      nothing, every file has a plain name, and every record is stored under
      its own id. */
  predicate Valid(ws: Workspace)
  {
    && (!ws.present ==> ws.records == map[])
    && (forall k :: k in ws.records ==> IsPlainName(k))
    && (forall k :: k in ws.records ==> ws.records[k].guid == k)
  }

  predicate NoDup(names: seq<string>)
  {
    forall i, j :: 0 <= i < j < |names| ==> names[i] != names[j]
  }

  /** `names` is one enumeration of the directory: each file exactly once. */
  predicate IsListing(ws: Workspace, names: seq<string>)
  {
    && NoDup(names)
    && (forall k :: k in names ==> k in ws.records)
    && (forall k :: k in ws.records ==> k in names)
  }

  /** The file names a prefix lookup with `pattern` is meant to reach. */
  function MatchingKeys(ws: Workspace, pattern: string): set<string>
  {
    set k | k in ws.records && StartsWith(k, pattern)
  }

  /** `Kiwi.is_project?`: the project directory exists. Where there is no
      project there are no issues. */
  function IsProject(ws: Workspace): (r: bool)
    ensures Valid(ws) && !r ==> ws.records == map[]
  {
    ws.present
  }

  /** `Issue#save`: writes the record to the file named by its id,
      replacing whatever that file held. The directory is not created:
      writing into a missing directory or to a name that denotes a
      directory is a file-system error. A name with a `/` is treated as a
      path into a sub-directory, which the project directory does not have,
      and fails too; path forms that lead back into the directory itself
      (`./x`) are not resolved. */
  function Save(ws: Workspace, issue: Issue): (r: Result<Workspace, Error>)
    ensures r.Success? <==> ws.present && !IsDirectoryName(issue.guid) && '/' !in issue.guid
    ensures r.Failure? ==> r.error == IOFailure
    ensures r.Success? ==> r.value.present
    ensures r.Success? ==> r.value.records.Keys == ws.records.Keys + {issue.guid}
    ensures r.Success? ==> r.value.records[issue.guid] == issue
    ensures r.Success? ==> forall k :: k in ws.records && k != issue.guid ==> r.value.records[k] == ws.records[k]
    ensures r.Success? && Valid(ws) && IsPlainName(issue.guid) ==> Valid(r.value)
  {
    if !ws.present || IsDirectoryName(issue.guid) || '/' in issue.guid then Failure(IOFailure)
    else Success(ws.(records := ws.records[issue.guid := issue]))
  }

  /** Re-saving a record that is already stored keeps the set of files,
      so any enumeration of the old directory enumerates the new one. */
  lemma SaveExisting(ws: Workspace, listing: seq<string>, issue: Issue)
    requires Valid(ws) && IsListing(ws, listing)
    requires issue.guid in ws.records
    ensures Save(ws, issue).Success?
    ensures Save(ws, issue).value.records.Keys == ws.records.Keys
    ensures Valid(Save(ws, issue).value) && IsListing(Save(ws, issue).value, listing)
  {
  }

  /** `Issue[id]`: the record stored under exactly `id`, or `None` when no
      such file exists. A name that denotes the existing directory cannot be
      read as a record. */
  function Lookup(ws: Workspace, id: string): (r: Result<Option<Issue>, Error>)
    ensures r.Failure? <==> ws.present && IsDirectoryName(id)
    ensures r.Failure? ==> r.error == IOFailure
    ensures r.Success? ==> (r.value.Some? <==> id in ws.records)
    ensures r.Success? && r.value.Some? ==> r.value.value == ws.records[id]
    ensures Valid(ws) && r.Success? && r.value.Some? ==> r.value.value.guid == id
  {
    if ws.present && IsDirectoryName(id) then Failure(IOFailure)
    else if id in ws.records then Success(Some(ws.records[id]))
    else Success(None)
  }

  /** The entries of `names` that start with `pattern`, in listing order. */
  function Filter(names: seq<string>, pattern: string): (r: seq<string>)
    ensures forall k :: k in r <==> k in names && StartsWith(k, pattern)
    ensures |r| <= |names|
  {
    if |names| == 0 then []
    else (if StartsWith(names[0], pattern) then [names[0]] else []) + Filter(names[1..], pattern)
  }

  lemma {:induction false} FilterNoDup(names: seq<string>, pattern: string)
    requires NoDup(names)
    ensures NoDup(Filter(names, pattern))
  {
    if |names| > 0 {
      FilterNoDup(names[1..], pattern);
      var rest := Filter(names[1..], pattern);
      assert names[0] !in names[1..];
      assert names[0] !in rest;
    }
  }

  /** Every name starts with the empty pattern. */
  lemma {:induction false} FilterEmptyPattern(names: seq<string>)
    ensures Filter(names, "") == names
  {
    if |names| > 0 {
      FilterEmptyPattern(names[1..]);
      assert [names[0]] + names[1..] == names;
    }
  }

  /** The first entry of a filtered listing is the first matching entry of
      the listing: every name enumerated before it fails to match. */
  lemma {:induction false} FilterHead(names: seq<string>, pattern: string)
    requires NoDup(names)
    requires |Filter(names, pattern)| > 0
    ensures forall i, j :: 0 <= j < i < |names| && names[i] == Filter(names, pattern)[0] ==> !StartsWith(names[j], pattern)
  {
    var head := Filter(names, pattern)[0];
    if StartsWith(names[0], pattern) {
      assert head == names[0];
    } else {
      var rest := names[1..];
      assert Filter(names, pattern) == Filter(rest, pattern);
      FilterHead(rest, pattern);
      forall i, j | 0 <= j < i < |names| && names[i] == head
        ensures !StartsWith(names[j], pattern)
      {
        if j > 0 {
          assert rest[i - 1] == head && rest[j - 1] == names[j];
        }
      }
    }
  }

  /** A duplicate-free sequence has as many elements as its set. */
  lemma {:induction false} NoDupCard(names: seq<string>)
    requires NoDup(names)
    ensures |set k | k in names| == |names|
  {
    if |names| > 0 {
      var rest := names[1..];
      NoDupCard(rest);
      assert names[0] !in rest;
      assert (set k | k in names) == (set k | k in rest) + {names[0]};
    }
  }

  /** The records stored under `names`, in that order. */
  function RecordsOf(ws: Workspace, names: seq<string>): seq<Issue>
    requires forall k :: k in names ==> k in ws.records
  {
    seq(|names|, i requires 0 <= i < |names| => ws.records[names[i]])
  }

  /** Reading the records under a sub-enumeration of a valid workspace
      yields each record whose id is in `names`, each exactly once. */
  lemma RecordsOfContents(ws: Workspace, names: seq<string>)
    requires Valid(ws) && NoDup(names)
    requires forall k :: k in names ==> k in ws.records
    ensures forall x :: x in RecordsOf(ws, names) <==> x in ws.records.Values && x.guid in names
    ensures forall i, j :: 0 <= i < j < |RecordsOf(ws, names)| ==> RecordsOf(ws, names)[i] != RecordsOf(ws, names)[j]
  {
    var r := RecordsOf(ws, names);
    forall x | x in ws.records.Values && x.guid in names
      ensures x in r
    {
      var i :| 0 <= i < |names| && names[i] == x.guid;
      assert r[i] == x;
    }
  }

  /** `Issue.find(pattern)`: the records whose file name starts with
      `pattern`, in enumeration order. */
  function Find(ws: Workspace, listing: seq<string>, pattern: string): (r: seq<Issue>)
    requires Valid(ws) && IsListing(ws, listing)
    ensures forall x :: x in r <==> x in ws.records.Values && StartsWith(x.guid, pattern)
    ensures forall i, j :: 0 <= i < j < |r| ==> r[i] != r[j]
    ensures |r| == |MatchingKeys(ws, pattern)|
  {
    var names := Filter(listing, pattern);
    FilterNoDup(listing, pattern);
    RecordsOfContents(ws, names);
    NoDupCard(names);
    assert (set k | k in names) == MatchingKeys(ws, pattern);
    RecordsOf(ws, names)
  }

  /** `Issue.all`: every record in the directory, in enumeration order. */
  function All(ws: Workspace, listing: seq<string>): (r: seq<Issue>)
    requires Valid(ws) && IsListing(ws, listing)
    ensures forall x :: x in r <==> x in ws.records.Values
    ensures forall i, j :: 0 <= i < j < |r| ==> r[i] != r[j]
    ensures |r| == |ws.records|
    ensures |r| == |listing| && forall i :: 0 <= i < |r| ==> r[i].guid == listing[i]
  {
    RecordsOfContents(ws, listing);
    NoDupCard(listing);
    assert (set k | k in listing) == ws.records.Keys;
    RecordsOf(ws, listing)
  }

  /** `Issue.find("")` enumerates the same records, in the same order, as
      `Issue.all`. */
  lemma FindEmptyPatternIsAll(ws: Workspace, listing: seq<string>)
    requires Valid(ws) && IsListing(ws, listing)
    ensures Find(ws, listing, "") == All(ws, listing)
  {
    FilterEmptyPattern(listing);
  }

  /** `Issue[id] || Issue.find(id).first`: the record stored under exactly
      `id` when there is one, else the first record in enumeration order
      whose id starts with `id`, else `None`. The exact record wins even
      when another file name extends `id` and comes first in the
      enumeration (`ExactWins`, `ExactWinsExample`). */
  function ResolveOne(ws: Workspace, listing: seq<string>, id: string): (r: Result<Option<Issue>, Error>)
    requires Valid(ws) && IsListing(ws, listing)
    ensures r.Failure? <==> ws.present && IsDirectoryName(id)
    ensures r.Failure? ==> r.error == IOFailure
    ensures id in ws.records ==> r == Success(Some(ws.records[id]))
    ensures r.Success? ==> (r.value.None? <==> MatchingKeys(ws, id) == {})
    ensures r.Success? && r.value.Some? ==> r.value.value in ws.records.Values && StartsWith(r.value.value.guid, id)
    ensures r.Success? && r.value.Some? && id !in ws.records ==>
      forall i, j :: 0 <= j < i < |listing| && listing[i] == r.value.value.guid ==> !StartsWith(listing[j], id)
  {
    match Lookup(ws, id)
    case Failure(e) => Failure(e)
    case Success(Some(x)) =>
      assert id in MatchingKeys(ws, id);
      Success(Some(x))
    case Success(None) =>
      var found := Find(ws, listing, id);
      if |found| == 0 then Success(None)
      else
        var names := Filter(listing, id);
        FilterHead(listing, id);
        assert found[0] == ws.records[names[0]];
        Success(Some(found[0]))
  }

  /** The exact-match rule decides the pick whenever a longer name shares
      the prefix: `Issue[id]` is tried before `Issue.find(id).first`. */
  lemma ExactWins(ws: Workspace, listing: seq<string>, id: string, k: string)
    requires Valid(ws) && IsListing(ws, listing)
    requires id in ws.records && k in MatchingKeys(ws, id) && k != id
    ensures ResolveOne(ws, listing, id) == Success(Some(ws.records[id]))
    ensures ResolveOne(ws, listing, id).value.value.guid == id
  {
  }

  /** A directory holding `ab` and `abc`, enumerated as `[abc, ab]`: the
      first prefix match of `ab` is `abc`, yet `ab` is the record picked. */
  lemma ExactWinsExample(a: Issue, b: Issue)
    requires a.guid == "ab" && b.guid == "abc"
    ensures
      var ws := Workspace(true, map["ab" := a, "abc" := b]);
      && Valid(ws) && IsListing(ws, ["abc", "ab"])
      && Filter(["abc", "ab"], "ab")[0] == "abc"
      && ResolveOne(ws, ["abc", "ab"], "ab") == Success(Some(a))
  {
  }
}
