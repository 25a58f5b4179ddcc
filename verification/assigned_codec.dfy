/** The wire codec of a task's assigned employees: one string field holding
    employee ids joined by ", ". Decoding splits on ',', trims each piece and
    drops empty pieces; updating adds or removes one id; encoding joins with
    ", ". Duplicates already present in the string are kept by decoding. */
module AssignedCodec {
  import opened Text
  import opened Sequences

  const Separator: string := ", "

  /** An id as decoding produces it: non-empty, comma-free, trimmed. */
  predicate IsCleanId(id: string) {
    id != "" && ',' !in id && IsTrimmed(id)
  }

  predicate AllClean(ids: seq<string>) {
    forall i :: 0 <= i < |ids| ==> IsCleanId(ids[i])
  }

  /** `map(p => p.trim())` */
  function TrimEach(pieces: seq<string>): (r: seq<string>)
    decreases |pieces|
  {
    if |pieces| == 0 then [] else [Trim(pieces[0])] + TrimEach(pieces[1..])
  }

  /** `filter(p => p.length > 0)` */
  function DropEmpty(pieces: seq<string>): (r: seq<string>)
    ensures forall i :: 0 <= i < |r| ==> r[i] != "" && r[i] in pieces
    decreases |pieces|
  {
    if |pieces| == 0 then []
    else (if pieces[0] == "" then [] else [pieces[0]]) + DropEmpty(pieces[1..])
  }

  /** Dropping empties is `filter(p => p.length > 0)`: every non-empty
      piece is kept, in order and with its repetitions. */
  lemma {:induction false} DropEmptyIsFilter(pieces: seq<string>)
    ensures DropEmpty(pieces) == Filter(pieces, (p: string) => p != "")
    decreases |pieces|
  {
    if |pieces| > 0 {
      DropEmptyIsFilter(pieces[1..]);
    }
  }

  /** The pieces of a split, trimmed, without the empty ones. */
  function CleanPieces(pieces: seq<string>): seq<string> {
    DropEmpty(TrimEach(pieces))
  }

  /** Decodes a stored assignment string; an empty string decodes to no ids. */
  function DecodeIds(s: string): (ids: seq<string>)
    ensures AllClean(ids)
  {
    if s == "" then []
    else
      var pieces := Split(s, ',');
      CleanPiecesAreClean(pieces);
      CleanPieces(pieces)
  }

  /** Comma-free pieces come out of trimming and filtering as clean ids. */
  lemma {:induction false} CleanPiecesAreClean(pieces: seq<string>)
    requires forall i :: 0 <= i < |pieces| ==> ',' !in pieces[i]
    ensures AllClean(CleanPieces(pieces))
    decreases |pieces|
  {
    if |pieces| > 0 {
      CleanPiecesAreClean(pieces[1..]);
      var t := Trim(pieces[0]);
      TrimAddsNothing(pieces[0], ',');
      assert TrimEach(pieces) == [t] + TrimEach(pieces[1..]);
      assert (TrimEach(pieces))[1..] == TrimEach(pieces[1..]);
      var rest := CleanPieces(pieces[1..]);
      assert CleanPieces(pieces) == (if t == "" then [] else [t]) + rest;
    }
  }

  function EncodeIds(ids: seq<string>): string {
    Join(ids, Separator)
  }

  datatype AssignAction = Add | Remove

  /** Every occurrence of `id` dropped, the rest in order. */
  function RemoveAll(ids: seq<string>, id: string): (r: seq<string>)
    decreases |ids|
  {
    if |ids| == 0 then []
    else (if ids[0] == id then [] else [ids[0]]) + RemoveAll(ids[1..], id)
  }

  /** The id list after an add or a remove. */
  function UpdateIds(current: seq<string>, id: string, action: AssignAction): seq<string> {
    match action
    case Add => if id in current then current else current + [id]
    case Remove => RemoveAll(current, id)
  }

  /** The string written back: the updated list joined with ", ". */
  function SetAssignedEmployees(current: seq<string>, id: string, action: AssignAction): string {
    EncodeIds(UpdateIds(current, id, action))
  }

  /** Splitting once more on a leading blank does not change what decodes. */
  lemma LeadingBlankInvisible(y: string)
    ensures CleanPieces(Split(" " + y, ',')) == CleanPieces(Split(y, ','))
  {
    var s := " " + y;
    assert s[0] == ' ' && s[1..] == y;
    var qs := Split(y, ',');
    var ps := Split(s, ',');
    assert ps == [[' '] + qs[0]] + qs[1..];
    TrimSkipsLeadingWhitespace(' ', qs[0]);
    assert ps[1..] == qs[1..];
    assert TrimEach(ps) == TrimEach(qs);
  }

  lemma DropEmptyPrepend(x: string, rest: seq<string>)
    requires x != ""
    ensures DropEmpty([x] + rest) == [x] + DropEmpty(rest)
  {
    assert ([x] + rest)[1..] == rest;
  }

  /** A non-empty string decodes as its cleaned split. */
  lemma NonEmptyDecodes(s: string)
    requires s != ""
    ensures DecodeIds(s) == CleanPieces(Split(s, ','))
  {
  }

  lemma CleanSingle(x: string)
    requires IsCleanId(x)
    ensures CleanPieces([x]) == [x]
  {
    TrimOfTrimmed(x);
    assert TrimEach([x]) == [x] + TrimEach([]);
    DropEmptyPrepend(x, []);
  }

  /** A clean id followed by ", " decodes as that id followed by the rest. */
  lemma DecodeStep(x: string, tail: string)
    requires IsCleanId(x)
    ensures CleanPieces(Split(x + Separator + tail, ',')) == [x] + CleanPieces(Split(tail, ','))
  {
    assert x + Separator + tail == x + [','] + (" " + tail);
    SplitAfterPiece(x, ',', " " + tail);
    var ps := Split(" " + tail, ',');
    assert ([x] + ps)[1..] == ps;
    assert TrimEach([x] + ps) == [Trim(x)] + TrimEach(ps);
    TrimOfTrimmed(x);
    DropEmptyPrepend(x, TrimEach(ps));
    LeadingBlankInvisible(tail);
  }

  /** Decoding the joined form of a list of clean ids gives that list back. */
  lemma DecodeEncode(ids: seq<string>)
    requires AllClean(ids)
    ensures DecodeIds(EncodeIds(ids)) == ids
  {
    if |ids| == 0 {
      assert EncodeIds(ids) == "";
    } else {
      JoinFirst(ids, Separator);
      assert EncodeIds(ids) != "";
      NonEmptyDecodes(EncodeIds(ids));
      CleanSplitEncode(ids);
    }
  }

  lemma {:induction false} CleanSplitEncode(ids: seq<string>)
    requires AllClean(ids) && |ids| >= 1
    ensures CleanPieces(Split(EncodeIds(ids), ',')) == ids
    decreases |ids|
  {
    if |ids| == 1 {
      assert ids == [ids[0]];
      EncodeOne(ids[0]);
    } else {
      AllCleanTail(ids);
      CleanSplitEncode(ids[1..]);
      EncodeStep(ids[0], ids[1..]);
      HeadTail(ids);
    }
  }

  lemma HeadTail(ids: seq<string>)
    requires |ids| > 0
    ensures [ids[0]] + ids[1..] == ids
  {
  }

  lemma AllCleanTail(ids: seq<string>)
    requires AllClean(ids) && |ids| > 0
    ensures IsCleanId(ids[0]) && AllClean(ids[1..])
  {
    forall i | 0 <= i < |ids[1..]| ensures IsCleanId(ids[1..][i]) {
      assert ids[1..][i] == ids[i + 1];
    }
  }

  /** One step of the round trip: the head id, then the rest. */
  lemma EncodeStep(x: string, rest: seq<string>)
    requires IsCleanId(x) && |rest| >= 1
    requires CleanPieces(Split(EncodeIds(rest), ',')) == rest
    ensures CleanPieces(Split(EncodeIds([x] + rest), ',')) == [x] + rest
  {
    JoinCons(x, rest, Separator);
    DecodeStep(x, EncodeIds(rest));
  }

  /** The base case of the round trip: a single clean id encodes to itself
      and decodes back to the one-element list. */
  lemma EncodeOne(x: string)
    requires IsCleanId(x)
    ensures CleanPieces(Split(EncodeIds([x]), ',')) == [x]
  {
    assert EncodeIds([x]) == x;
    SplitWithoutSeparator(x, ',');
    CleanSingle(x);
  }

  /** Normalisation is stable: re-encoding a decoded string and decoding it
      again gives the same ids, so the stored form is a fixed point after one
      decode/encode pass. */
  lemma NormaliseIdempotent(s: string)
    ensures DecodeIds(EncodeIds(DecodeIds(s))) == DecodeIds(s)
    ensures EncodeIds(DecodeIds(EncodeIds(DecodeIds(s)))) == EncodeIds(DecodeIds(s))
  {
    DecodeEncode(DecodeIds(s));
  }

  /** An add puts `id` at the end exactly when it is absent, and otherwise
      returns the input list itself. */
  lemma AddSpec(current: seq<string>, id: string)
    ensures id in UpdateIds(current, id, Add)
    ensures id in current ==> UpdateIds(current, id, Add) == current
    ensures id !in current ==> UpdateIds(current, id, Add) == current + [id]
    ensures multiset(current)[id] <= 1 ==> multiset(UpdateIds(current, id, Add))[id] == 1
  {
  }

  /** Repeated adds of one id never create a second copy. */
  lemma AddIdempotent(current: seq<string>, id: string)
    ensures UpdateIds(UpdateIds(current, id, Add), id, Add) == UpdateIds(current, id, Add)
  {
  }

  /** Removing drops every copy of `id`, keeps every other id as often as
      it occurred and in order, and leaves a list without `id` unchanged. */
  lemma RemoveAllSpec(ids: seq<string>, id: string)
    ensures id !in RemoveAll(ids, id)
    ensures forall x :: x != id ==> multiset(RemoveAll(ids, id))[x] == multiset(ids)[x]
    ensures IsSubsequence(RemoveAll(ids, id), ids)
    ensures id !in ids ==> RemoveAll(ids, id) == ids
  {
    RemoveAllCounts(ids, id);
    RemoveAllSubsequence(ids, id);
  }

  lemma {:induction false} RemoveAllCounts(ids: seq<string>, id: string)
    ensures id !in RemoveAll(ids, id)
    ensures forall x :: x != id ==> multiset(RemoveAll(ids, id))[x] == multiset(ids)[x]
    ensures id !in ids ==> RemoveAll(ids, id) == ids
    decreases |ids|
  {
    if |ids| > 0 {
      RemoveAllCounts(ids[1..], id);
      assert ids == [ids[0]] + ids[1..];
    }
  }

  lemma {:induction false} RemoveAllSubsequence(ids: seq<string>, id: string)
    ensures IsSubsequence(RemoveAll(ids, id), ids)
    decreases |ids|
  {
    if |ids| > 0 {
      RemoveAllSubsequence(ids[1..], id);
      var rest := RemoveAll(ids[1..], id);
      if ids[0] != id {
        assert RemoveAll(ids, id) == [ids[0]] + rest;
        assert ([ids[0]] + rest)[1..] == rest;
      } else {
        assert RemoveAll(ids, id) == rest;
        RemoveAllCounts(ids[1..], id);
        assert |rest| > 0 ==> rest[0] != ids[0];
      }
    }
  }

  /** `xs` is obtained from `ys` by dropping elements, keeping the order. */
  predicate IsSubsequence(xs: seq<string>, ys: seq<string>)
    decreases |ys|
  {
    if |xs| == 0 then true
    else if |ys| == 0 then false
    else if xs[0] == ys[0] then IsSubsequence(xs[1..], ys[1..])
    else IsSubsequence(xs, ys[1..])
  }

  /** A remove drops every occurrence of `id`, keeps every other id as often
      as it was there and in the same relative order, and is a no-op for an
      absent id. */
  lemma RemoveSpec(current: seq<string>, id: string)
    ensures id !in UpdateIds(current, id, Remove)
    ensures forall x :: x != id ==>
      multiset(UpdateIds(current, id, Remove))[x] == multiset(current)[x]
    ensures IsSubsequence(UpdateIds(current, id, Remove), current)
    ensures id !in current ==> UpdateIds(current, id, Remove) == current
  {
    RemoveAllSpec(current, id);
  }

  /** Removing an id that was just added restores the list. */
  lemma RemoveUndoesAdd(current: seq<string>, id: string)
    requires id !in current
    ensures UpdateIds(UpdateIds(current, id, Add), id, Remove) == current
  {
    RemoveAllAppend(current, id);
    RemoveAllSpec(current, id);
  }

  lemma {:induction false} RemoveAllAppend(ids: seq<string>, id: string)
    ensures RemoveAll(ids + [id], id) == RemoveAll(ids, id)
    decreases |ids|
  {
    if |ids| == 0 {
      assert RemoveAll([id], id) == [] + RemoveAll([], id);
    } else {
      assert (ids + [id])[1..] == ids[1..] + [id];
      RemoveAllAppend(ids[1..], id);
    }
  }

  /** The wire round trip of an assignment change: for clean ids, decoding
      the written string returns exactly the updated list. */
  lemma SetThenDecode(current: seq<string>, id: string, action: AssignAction)
    requires AllClean(current)
    requires action == Add ==> IsCleanId(id)
    ensures DecodeIds(SetAssignedEmployees(current, id, action)) == UpdateIds(current, id, action)
  {
    var updated := UpdateIds(current, id, action);
    if action == Remove {
      RemoveAllSpec(current, id);
      SubsequenceKeepsClean(updated, current);
    }
    DecodeEncode(updated);
  }

  lemma {:induction false} SubsequenceKeepsClean(xs: seq<string>, ys: seq<string>)
    requires IsSubsequence(xs, ys)
    requires AllClean(ys)
    ensures AllClean(xs)
    decreases |ys|
  {
    if |xs| > 0 && |ys| > 0 {
      if xs[0] == ys[0] {
        SubsequenceKeepsClean(xs[1..], ys[1..]);
        assert xs == [xs[0]] + xs[1..];
      } else {
        SubsequenceKeepsClean(xs, ys[1..]);
      }
    }
  }

  /** At the wire level, adding an id to what a previous add wrote writes the
      same string again. */
  lemma WireAddIdempotent(stored: string, id: string)
    requires IsCleanId(id)
    ensures var once := SetAssignedEmployees(DecodeIds(stored), id, Add);
            SetAssignedEmployees(DecodeIds(once), id, Add) == once
  {
    SetThenDecode(DecodeIds(stored), id, Add);
    AddIdempotent(DecodeIds(stored), id);
  }
}
