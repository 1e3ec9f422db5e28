/** The `Issue` record of `Kiwi::Issue`: an immutable id, a free-text
    description, a two-valued lifecycle state and the reporting user. */
module Issues {
  import opened Wrappers

  /** The closed form of the symbols `:unresolved` and `:resolved`. */
  datatype State = Unresolved | Resolved

  datatype Issue = Issue(guid: string, text: string, state: State, reportedBy: string)

  /** `Issue.new(text, state)`: the id comes from the injected generator
      value `guid`, the reporter from the injected current `user`, and the
      state defaults to `Unresolved` when none is passed. */
  function NewIssue(guid: string, user: string, text: string, state: Option<State>): (r: Issue)
    ensures r.guid == guid && r.reportedBy == user && r.text == text
    ensures state.None? ==> r.state == Unresolved
    ensures state.Some? ==> r.state == state.value
  {
    Issue(guid, text, if state.Some? then state.value else Unresolved, user)
  }

  /** `issue.state = :resolved`. */
  function MarkResolved(i: Issue): (r: Issue)
    ensures r.state == Resolved
    ensures r.guid == i.guid && r.text == i.text && r.reportedBy == i.reportedBy
  {
    i.(state := Resolved)
  }

  /** `issue.text = text`. */
  function WithText(i: Issue, text: string): (r: Issue)
    ensures r.text == text
    ensures r.guid == i.guid && r.state == i.state && r.reportedBy == i.reportedBy
  {
    i.(text := text)
  }
}
