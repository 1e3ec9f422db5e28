/** The command functions of module `Kiwi`: `add`, `update`, `resolve`,
    `list` and `untrack`, each a transition from one workspace to the next.

    Values the program takes from its surroundings are parameters: the id
    `Kiwi.guid` would generate, the user `Kiwi.user` would read from the
    environment, the text read from standard input, and the order in which
    the directory is enumerated. A command that raises in the program
    returns `Failure`; since `add` creates the directory before it
    validates, every command returns the workspace it leaves behind
    together with its outcome. */
module Commands {
  import opened Wrappers
  import opened Text
  import opened Issues
  import opened Store

  /** The workspace a command leaves behind and what it returned or raised. */
  datatype Effect<T> = Effect(ws: Workspace, result: Result<T, Error>)

  /** `Kiwi.add(text)`: creates the project directory if it is missing,
      refuses a description that is blank once trailing whitespace is
      stripped, and otherwise saves a new unresolved issue with the given
      text (unstripped) under the id `guid`, reported by `user`. `guid` is
      the value `Kiwi.guid` produced, so it has that generator's shape. It
      is not checked against existing ids: an old record under the same id
      is overwritten. */
  function Add(ws: Workspace, guid: string, user: string, text: string): (r: Effect<Issue>)
    requires IsGuid(guid)
    ensures IsProject(r.ws)
    ensures IsBlank(text) <==> r.result == Failure(ValidationError)
    ensures !IsBlank(text) ==> r.result.Success?
    ensures r.result.Failure? ==> r.ws.records == ws.records
    ensures r.result.Success? ==>
      var issue := r.result.value;
      && issue.guid == guid && issue.text == text
      && issue.state == Unresolved && issue.reportedBy == user
    ensures r.result.Success? ==> r.ws.records.Keys == ws.records.Keys + {guid}
    ensures r.result.Success? ==> r.ws.records[guid] == r.result.value
    ensures r.result.Success? ==> forall k :: k in ws.records && k != guid ==> r.ws.records[k] == ws.records[k]
    ensures r.result.Success? && guid !in ws.records ==> |r.ws.records| == |ws.records| + 1
    ensures Valid(ws) ==> Valid(r.ws)
  {
    GuidIsPlain(guid);
    var created := ws.(present := true);
    if RStrip(text) == "" then Effect(created, Failure(ValidationError))
    else
      var issue := NewIssue(guid, user, text, None);
      match Save(created, issue)
      case Success(saved) => Effect(saved, Success(issue))
      case Failure(e) => Effect(created, Failure(e))
  }

  /** The description `update` stores: the explicit argument when one is
      given (even an empty one), otherwise everything read from standard
      input with trailing whitespace stripped. */
  function NewText(text: Option<string>, input: string): (r: string)
    ensures text.Some? ==> r == text.value
    ensures text.None? ==> r <= input && (r == [] || !IsStripped(r[|r| - 1]))
    ensures text.None? ==> forall i :: |r| <= i < |input| ==> IsStripped(input[i])
  {
    if text.Some? then text.value else RStrip(input)
  }

  /** `Kiwi.update(id, text)`: resolves `id` exactly, then by prefix, and
      re-saves that issue with its description replaced. When nothing
      matches, the program dereferences `nil`; here that is `NotFound`. */
  function Update(ws: Workspace, listing: seq<string>, id: string, text: Option<string>, input: string): (r: Effect<Issue>)
    requires Valid(ws) && IsListing(ws, listing)
    ensures r.result.Failure? ==> r.ws == ws
    ensures r.result == Failure(IOFailure) <==> ws.present && IsDirectoryName(id)
    ensures r.result == Failure(NotFound) <==> !(ws.present && IsDirectoryName(id)) && MatchingKeys(ws, id) == {}
    ensures r.result.Success? <==> ResolveOne(ws, listing, id).Success? && ResolveOne(ws, listing, id).value.Some?
    ensures r.result.Success? ==>
      var issue := r.result.value;
      && issue.guid in ws.records && StartsWith(issue.guid, id)
      && issue.text == NewText(text, input)
      && issue.state == ws.records[issue.guid].state
      && issue.reportedBy == ws.records[issue.guid].reportedBy
    ensures r.result.Success? ==> ResolveOne(ws, listing, id) == Success(Some(ws.records[r.result.value.guid]))
    ensures r.result.Success? ==> r.ws.records.Keys == ws.records.Keys
    ensures r.result.Success? ==> r.ws.records[r.result.value.guid] == r.result.value
    ensures r.result.Success? ==> forall k :: k in ws.records && k != r.result.value.guid ==> r.ws.records[k] == ws.records[k]
    ensures Valid(r.ws) && IsListing(r.ws, listing)
  {
    match ResolveOne(ws, listing, id)
    case Failure(e) => Effect(ws, Failure(e))
    case Success(None) => Effect(ws, Failure(NotFound))
    case Success(Some(issue)) =>
      var updated := WithText(issue, NewText(text, input));
      SaveExisting(ws, listing, updated);
      match Save(ws, updated)
      case Success(saved) => Effect(saved, Success(updated))
      case Failure(e) => Effect(ws, Failure(e))
  }

  /** `Kiwi.resolve(id)`: resolves `id` exactly, then by prefix, and
      re-saves that issue with state `Resolved`. Resolving a resolved issue
      is not an error. When nothing matches, the program dereferences
      `nil`; here that is `NotFound`. */
  function Resolve(ws: Workspace, listing: seq<string>, id: string): (r: Effect<Issue>)
    requires Valid(ws) && IsListing(ws, listing)
    ensures r.result.Failure? ==> r.ws == ws
    ensures r.result == Failure(IOFailure) <==> ws.present && IsDirectoryName(id)
    ensures r.result == Failure(NotFound) <==> !(ws.present && IsDirectoryName(id)) && MatchingKeys(ws, id) == {}
    ensures r.result.Success? <==> ResolveOne(ws, listing, id).Success? && ResolveOne(ws, listing, id).value.Some?
    ensures r.result.Success? ==>
      var issue := r.result.value;
      && issue.guid in ws.records && StartsWith(issue.guid, id)
      && issue.state == Resolved
      && issue.text == ws.records[issue.guid].text
      && issue.reportedBy == ws.records[issue.guid].reportedBy
    ensures r.result.Success? ==> ResolveOne(ws, listing, id) == Success(Some(ws.records[r.result.value.guid]))
    ensures r.result.Success? ==> r.ws.records.Keys == ws.records.Keys
    ensures r.result.Success? ==> r.ws.records[r.result.value.guid] == r.result.value
    ensures r.result.Success? ==> forall k :: k in ws.records && k != r.result.value.guid ==> r.ws.records[k] == ws.records[k]
    ensures Valid(r.ws) && IsListing(r.ws, listing)
  {
    match ResolveOne(ws, listing, id)
    case Failure(e) => Effect(ws, Failure(e))
    case Success(None) => Effect(ws, Failure(NotFound))
    case Success(Some(issue)) =>
      var resolved := MarkResolved(issue);
      SaveExisting(ws, listing, resolved);
      match Save(ws, resolved)
      case Success(saved) => Effect(saved, Success(resolved))
      case Failure(e) => Effect(ws, Failure(e))
  }

  /** Two keys that both match `id` and are both preceded in the listing
      only by non-matching names are the same key: "first match" is well
      defined. */
  lemma FirstMatchUnique(listing: seq<string>, id: string, a: string, b: string)
    requires NoDup(listing)
    requires a in listing && b in listing && StartsWith(a, id) && StartsWith(b, id)
    requires forall i, j :: 0 <= j < i < |listing| && listing[i] == a ==> !StartsWith(listing[j], id)
    requires forall i, j :: 0 <= j < i < |listing| && listing[i] == b ==> !StartsWith(listing[j], id)
    ensures a == b
  {
  }

  /** Which file `ResolveOne` picks depends only on the file names and
      their enumeration, not on the records' contents. */
  lemma ResolveOneSameKeys(ws1: Workspace, ws2: Workspace, listing: seq<string>, id: string)
    requires Valid(ws1) && IsListing(ws1, listing)
    requires Valid(ws2) && IsListing(ws2, listing)
    requires ws1.present == ws2.present && ws1.records.Keys == ws2.records.Keys
    requires ResolveOne(ws1, listing, id).Success? && ResolveOne(ws1, listing, id).value.Some?
    ensures
      var k := ResolveOne(ws1, listing, id).value.value.guid;
      ResolveOne(ws2, listing, id) == Success(Some(ws2.records[k]))
  {
    var k := ResolveOne(ws1, listing, id).value.value.guid;
    assert k in MatchingKeys(ws2, id);
    var other := ResolveOne(ws2, listing, id).value.value.guid;
    if id !in ws1.records {
      FirstMatchUnique(listing, id, k, other);
    }
  }

  /** Resolving twice has the same effect as resolving once: the second
      call finds the same issue, already resolved, and rewrites it
      unchanged. */
  lemma ResolveIdempotent(ws: Workspace, listing: seq<string>, id: string)
    requires Valid(ws) && IsListing(ws, listing)
    requires Resolve(ws, listing, id).result.Success?
    ensures Resolve(Resolve(ws, listing, id).ws, listing, id) == Resolve(ws, listing, id)
  {
    var first := Resolve(ws, listing, id);
    var issue := first.result.value;
    ResolveOneSameKeys(ws, first.ws, listing, id);
    assert first.ws.records[issue.guid := MarkResolved(issue)] == first.ws.records;
  }

  /** Lines drawn from an enumeration of the directory name every record. */
  lemma ListCovers(ws: Workspace, listing: seq<string>, lines: seq<(string, State)>)
    requires Valid(ws) && IsListing(ws, listing)
    requires |lines| == |listing|
    requires forall i :: 0 <= i < |lines| ==> lines[i] == (listing[i], ws.records[listing[i]].state)
    ensures forall k :: k in ws.records ==> (k, ws.records[k].state) in lines
  {
    forall k | k in ws.records
      ensures (k, ws.records[k].state) in lines
    {
      var i :| 0 <= i < |listing| && listing[i] == k;
      assert lines[i] == (k, ws.records[k].state);
    }
  }

  /** `Kiwi.list`: one `(id, state)` line per issue, in enumeration order. */
  function List(ws: Workspace, listing: seq<string>): (r: seq<(string, State)>)
    requires Valid(ws) && IsListing(ws, listing)
    ensures |r| == |ws.records|
    ensures forall i :: 0 <= i < |r| ==> r[i].0 in ws.records && r[i].1 == ws.records[r[i].0].state
    ensures forall k :: k in ws.records ==> (k, ws.records[k].state) in r
    ensures forall i, j :: 0 <= i < j < |r| ==> r[i].0 != r[j].0
  {
    var all := All(ws, listing);
    var lines := seq(|all|, i requires 0 <= i < |all| => (all[i].guid, all[i].state));
    ListCovers(ws, listing, lines);
    lines
  }

  /** Whether the confirmation read by `untrack` is a capital `Y`: only
      the first character of the reply counts. */
  predicate Confirmed(reply: string)
    ensures Confirmed(reply) <==> StartsWith(reply, "Y")
  {
    |reply| > 0 && reply[0] == 'Y'
  }

  /** A file name the glob `*` does not enumerate. */
  predicate IsHidden(name: string)
  {
    StartsWith(name, ".")
  }

  /** `Kiwi.untrack(reply)`: on confirmation deletes every file the glob
      `*` enumerates and then the directory. Removing a directory that does
      not exist, or one still holding a hidden file, raises; without
      confirmation nothing happens. */
  function Untrack(ws: Workspace, reply: string): (r: Effect<()>)
    ensures !Confirmed(reply) ==> r == Effect(ws, Success(()))
    ensures Confirmed(reply) && !IsProject(ws) ==> r.result == Failure(IOFailure) && r.ws == ws
    ensures Confirmed(reply) && IsProject(ws) ==>
      (r.result.Success? <==> forall k :: k in ws.records ==> !IsHidden(k))
    ensures Confirmed(reply) && r.result.Success? ==> !IsProject(r.ws) && r.ws.records == map[]
    ensures Confirmed(reply) && IsProject(ws) && r.result.Failure? ==>
      && r.result.error == IOFailure && IsProject(r.ws)
      && (forall k :: k in r.ws.records <==> k in ws.records && IsHidden(k))
      && (forall k :: k in r.ws.records ==> r.ws.records[k] == ws.records[k])
    ensures Valid(ws) && Confirmed(reply) && IsProject(ws) ==> r.result.Success?
    ensures Valid(ws) ==> Valid(r.ws)
  {
    if !Confirmed(reply) then Effect(ws, Success(()))
    else if !ws.present then Effect(ws, Failure(IOFailure))
    else if forall k :: k in ws.records ==> !IsHidden(k) then Effect(Untracked, Success(()))
    else Effect(ws.(records := map k | k in ws.records && IsHidden(k) :: ws.records[k]), Failure(IOFailure))
  }

  /** After a confirmed `untrack` nothing can be found: the only listing is
      empty, `all` and every `find` are empty, and no id resolves. */
  lemma UntrackForgetsEverything(ws: Workspace, reply: string, listing: seq<string>, id: string)
    requires Valid(ws) && IsProject(ws) && Confirmed(reply)
    requires IsListing(Untrack(ws, reply).ws, listing)
    ensures listing == []
    ensures All(Untrack(ws, reply).ws, listing) == []
    ensures Find(Untrack(ws, reply).ws, listing, id) == []
    ensures ResolveOne(Untrack(ws, reply).ws, listing, id) == Success(None)
  {
    NoDupCard(listing);
    assert (set k | k in listing) == {};
  }

  /** Adding an issue and then looking its id up returns the issue that was
      created, with the text, state and reporter it was created with. */
  lemma AddThenLookup(ws: Workspace, guid: string, user: string, text: string)
    requires !IsBlank(text) && IsGuid(guid)
    ensures Lookup(Add(ws, guid, user, text).ws, guid) == Success(Some(Issue(guid, text, Unresolved, user)))
  {
  }

  /** Adding an issue and resolving it by its id leaves it stored resolved,
      and `list` then shows it with state `Resolved`. */
  lemma AddThenResolve(ws: Workspace, guid: string, user: string, text: string, listing: seq<string>)
    requires Valid(ws) && !IsBlank(text) && IsGuid(guid)
    requires IsListing(Add(ws, guid, user, text).ws, listing)
    ensures Resolve(Add(ws, guid, user, text).ws, listing, guid).result == Success(Issue(guid, text, Resolved, user))
    ensures Lookup(Resolve(Add(ws, guid, user, text).ws, listing, guid).ws, guid) == Success(Some(Issue(guid, text, Resolved, user)))
    ensures (guid, Resolved) in List(Resolve(Add(ws, guid, user, text).ws, listing, guid).ws, listing)
  {
  }

  /** Updating an issue and then looking its id up returns the issue with
      the new text and its other fields as they were stored. */
  lemma UpdateThenLookup(ws: Workspace, listing: seq<string>, id: string, text: Option<string>, input: string)
    requires Valid(ws) && IsListing(ws, listing)
    requires Update(ws, listing, id, text, input).result.Success?
    ensures
      var issue := Update(ws, listing, id, text, input).result.value;
      var stored := ws.records[issue.guid];
      Lookup(Update(ws, listing, id, text, input).ws, issue.guid)
        == Success(Some(Issue(stored.guid, NewText(text, input), stored.state, stored.reportedBy)))
  {
  }
}
