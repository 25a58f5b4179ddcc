/** The shared status colour helper: a status matched case-insensitively
    against the workflow names, one colour per group. */
module StatusColors {
  import opened Wrappers
  import Text

  /** The `StatusColors` palette. */
  const Completed: string := "#4CAF50"
  const InProgress: string := "#2196F3"
  const Open: string := "#FF9800"
  const Pending: string := "#FF9800"
  const Default: string := "#757575"

  predicate IsPaletteColour(c: string) {
    c == Completed || c == InProgress || c == Open || c == Pending || c == Default
  }

  /** `getStatusColor(status)`; None is a missing status (`status?.` yields
      `undefined`, which matches no case). */
  function StatusColor(status: Option<string>): (c: string)
    ensures IsPaletteColour(c)
    ensures status.None? ==> c == Default
  {
    if status.None? then Default
    else
      var s := Text.ToLower(status.value);
      if s == "completed" || s == "closed" then Completed
      else if s == "in progress" || s == "working" || s == "in_progress" then InProgress
      else if s == "open" || s == "pending" then Open
      else Default
  }

  /** The colour depends only on the lower-cased status. */
  lemma StatusColorIgnoresCase(s: string)
    ensures StatusColor(Some(Text.ToLower(s))) == StatusColor(Some(s))
  {
    Text.ToLowerIdempotent(s);
  }

  /** Each group of names, in any capitalisation, gets its colour. */
  lemma StatusGroups(s: string)
    ensures Text.ToLower(s) in {"completed", "closed"} ==> StatusColor(Some(s)) == Completed
    ensures Text.ToLower(s) in {"in progress", "working", "in_progress"} ==> StatusColor(Some(s)) == InProgress
    ensures Text.ToLower(s) in {"open", "pending"} ==> StatusColor(Some(s)) == Open
    ensures Text.ToLower(s) !in {"completed", "closed", "in progress", "working", "in_progress", "open", "pending"} ==>
      StatusColor(Some(s)) == Default
  {
  }
}
