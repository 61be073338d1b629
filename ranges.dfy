/** Slot ranges: convert_range, which expands text such as "3,5,7-9" into
    the decimal strings of the slots it names, and REG_SUBRANGE, which
    recognises one bare subrange such as "7" or "7-9". */
module Ranges {
  import opened Base
  import PyStr

  /** \d+(-\d+)? matched against all of c. */
  predicate SubrangeBody(c: string)
  {
    var i := PyStr.SkipDigits(c, 0);
    0 < i && (i == |c| || (c[i] == '-' && i + 1 < |c| && PyStr.AllDigits(c[i + 1..])))
  }

  /** REG_SUBRANGE.search(s) for ^\d+(-\d+)?$: "$" also matches before a
      final newline, so one trailing newline is accepted. */
  predicate IsSubrange(s: string)
  {
    SubrangeBody(s) || (|s| > 0 && s[|s| - 1] == '\n' && SubrangeBody(s[..|s| - 1]))
  }

  /** [str(i) for i in range(lo, hi)]. */
  function Decimals(lo: int, hi: int): (r: seq<string>)
    ensures |r| == if lo < hi then hi - lo else 0
  {
    seq(if lo < hi then hi - lo else 0, k => PyStr.IntToStr(lo + k))
  }

  /** The ids one comma-separated piece contributes: int() of the text before
      the first '-', and up to int() of the text after it when the piece
      splits into exactly two parts; a piece with more than one '-' counts as
      a single start.  Err(ValueError) when int() rejects a part it reads. */
  function SubrangeIds(piece: string): Result<seq<string>>
  {
    var sub := PyStr.Split(piece, '-');
    match PyStr.ParseInt(sub[0])
    case None => Err(ValueError)
    case Some(start) =>
      if |sub| == 2 then
        match PyStr.ParseInt(sub[1])
        case None => Err(ValueError)
        case Some(last) => Ok(Decimals(start, last + 1))
      else Ok(Decimals(start, start + 1))
  }

  /** ids already collected, then the expansion of r when it succeeded. */
  function Prepend(ids: seq<string>, r: Result<seq<string>>): Result<seq<string>>
  {
    match r
    case Ok(more) => Ok(ids + more)
    case Err(e) => Err(e)
  }

  lemma PrependAssoc(ids: seq<string>, more: seq<string>, r: Result<seq<string>>)
    ensures Prepend(ids, Prepend(more, r)) == Prepend(ids + more, r)
    ensures Prepend([], r) == r
  {
    if r.Ok? {
      assert ids + (more + r.value) == (ids + more) + r.value;
      assert [] + r.value == r.value;
    }
  }

  /** The pieces expanded in order and concatenated; the first piece that
      int() rejects makes the whole expansion fail. */
  function ExpandPieces(pieces: seq<string>): Result<seq<string>>
    decreases |pieces|
  {
    if |pieces| == 0 then Ok([])
    else match SubrangeIds(pieces[0])
      case Err(e) => Err(e)
      case Ok(ids) => Prepend(ids, ExpandPieces(pieces[1..]))
  }

  /** What convert_range(txt) returns, or the ValueError it raises. */
  function ConvertRangeSpec(txt: string): Result<seq<string>>
  {
    ExpandPieces(PyStr.Split(txt, ','))
  }

  /** convert_range: the loop over the comma-separated subranges, extending
      the id list with every integer of each one. */
  method ConvertRange(txt: string) returns (r: Result<seq<string>>)
    ensures r == ConvertRangeSpec(txt)
  {
    var pieces := PyStr.Split(txt, ',');
    var ids: seq<string> := [];
    var i := 0;
    assert pieces[0..] == pieces;
    PrependAssoc([], [], ExpandPieces(pieces));
    while i < |pieces|
      invariant 0 <= i <= |pieces|
      invariant ExpandPieces(pieces) == Prepend(ids, ExpandPieces(pieces[i..]))
    {
      assert pieces[i..][1..] == pieces[i + 1..];
      assert pieces[i..][0] == pieces[i];
      var more := PieceIds(pieces[i]);
      if more.Err? {
        assert ExpandPieces(pieces[i..]) == Err(more.error);
        return Err(more.error);
      }
      PrependAssoc(ids, more.value, ExpandPieces(pieces[i + 1..]));
      ids := ids + more.value;
      i := i + 1;
    }
    assert pieces[i..] == [];
    assert ids + [] == ids;
    r := Ok(ids);
  }

  /** The body of convert_range's loop for one subrange: parse its bounds,
      then list the ids between them. */
  method PieceIds(piece: string) returns (r: Result<seq<string>>)
    ensures r == SubrangeIds(piece)
  {
    var sub := PyStr.Split(piece, '-');
    var start := PyStr.ParseInt(sub[0]);
    if start.None? {
      return Err(ValueError);
    }
    var end := start.value + 1;
    if |sub| == 2 {
      var last := PyStr.ParseInt(sub[1]);
      if last.None? {
        return Err(ValueError);
      }
      end := last.value + 1;
    }
    var ids := RangeIds(start.value, end);
    r := Ok(ids);
  }

  /** [str(i) for i in range(lo, hi)], one id at a time. */
  method RangeIds(lo: int, hi: int) returns (ids: seq<string>)
    ensures ids == Decimals(lo, hi)
  {
    ids := [];
    if lo < hi {
      var k := lo;
      while k < hi
        invariant lo <= k <= hi
        invariant ids == Decimals(lo, k)
      {
        ids := ids + [PyStr.IntToStr(k)];
        k := k + 1;
      }
    }
  }

  /** A slot range as the scheduler writes it: one slot, or lo-hi. */
  datatype Slot = Single(n: nat) | Span(lo: nat, hi: nat)

  function FormatSlot(s: Slot): string
  {
    match s
    case Single(n) => PyStr.NatToStr(n)
    case Span(lo, hi) => PyStr.NatToStr(lo) + "-" + PyStr.NatToStr(hi)
  }

  /** The comma-separated text of a slot list. */
  function FormatSlots(ss: seq<Slot>): string
  {
    PyStr.Join(seq(|ss|, i requires 0 <= i < |ss| => FormatSlot(ss[i])), ',')
  }

  /** The slots a range stands for, in ascending order; lo-hi with hi < lo
      stands for none. */
  function SlotIds(s: Slot): seq<string>
  {
    match s
    case Single(n) => [PyStr.NatToStr(n)]
    case Span(lo, hi) => Decimals(lo, hi + 1)
  }

  function AllSlotIds(ss: seq<Slot>): seq<string>
    decreases |ss|
  {
    if |ss| == 0 then [] else SlotIds(ss[0]) + AllSlotIds(ss[1..])
  }

  lemma NatDecimals(lo: nat, hi: int)
    ensures forall k :: 0 <= k < |Decimals(lo, hi)| ==> Decimals(lo, hi)[k] == PyStr.NatToStr(lo + k)
  {
    forall k | 0 <= k < |Decimals(lo, hi)| ensures Decimals(lo, hi)[k] == PyStr.NatToStr(lo + k) {
      assert Decimals(lo, hi)[k] == PyStr.IntToStr(lo + k);
    }
  }

  lemma DigitsHaveNoDash(n: nat)
    ensures '-' !in PyStr.NatToStr(n) && ',' !in PyStr.NatToStr(n)
  {
    var s := PyStr.NatToStr(n);
    forall k | 0 <= k < |s| ensures s[k] != '-' && s[k] != ',' {
      assert PyStr.IsDigit(s[k]);
    }
  }

  lemma {:induction false} SlotIdsOfFormat(s: Slot)
    ensures SubrangeIds(FormatSlot(s)) == Ok(SlotIds(s))
  {
    match s
    case Single(n) => SingleIdsOfFormat(n);
    case Span(lo, hi) => SpanIdsOfFormat(lo, hi);
  }

  lemma SingleIdsOfFormat(n: nat)
    ensures SubrangeIds(FormatSlot(Single(n))) == Ok(SlotIds(Single(n)))
  {
    DigitsHaveNoDash(n);
    PyStr.SplitJoin([PyStr.NatToStr(n)], '-');
    PyStr.ParseIntOfNatToStr(n);
    assert Decimals(n, n + 1) == [PyStr.IntToStr(n)];
  }

  lemma SpanIdsOfFormat(lo: nat, hi: nat)
    ensures SubrangeIds(FormatSlot(Span(lo, hi))) == Ok(SlotIds(Span(lo, hi)))
  {
    DigitsHaveNoDash(lo);
    DigitsHaveNoDash(hi);
    var parts := [PyStr.NatToStr(lo), PyStr.NatToStr(hi)];
    assert PyStr.Join(parts, '-') == FormatSlot(Span(lo, hi));
    PyStr.SplitJoin(parts, '-');
    PyStr.ParseIntOfNatToStr(lo);
    PyStr.ParseIntOfNatToStr(hi);
  }

  lemma {:induction false} ExpandFormatted(ss: seq<Slot>, pieces: seq<string>)
    requires |pieces| == |ss|
    requires forall i :: 0 <= i < |ss| ==> pieces[i] == FormatSlot(ss[i])
    ensures ExpandPieces(pieces) == Ok(AllSlotIds(ss))
    decreases |ss|
  {
    if |ss| > 0 {
      SlotIdsOfFormat(ss[0]);
      ExpandFormatted(ss[1..], pieces[1..]);
    }
  }

  /** convert_range inverts the scheduler's range notation: the text of any
      non-empty slot list expands to the ids of each subrange, ascending
      within it, concatenated in the order the subranges are written. */
  lemma ConvertRangeOfFormat(ss: seq<Slot>)
    requires |ss| > 0
    ensures ConvertRangeSpec(FormatSlots(ss)) == Ok(AllSlotIds(ss))
  {
    var pieces := seq(|ss|, i requires 0 <= i < |ss| => FormatSlot(ss[i]));
    forall i | 0 <= i < |pieces| ensures ',' !in pieces[i] {
      match ss[i]
      case Single(n) => DigitsHaveNoDash(n);
      case Span(lo, hi) =>
        DigitsHaveNoDash(lo);
        DigitsHaveNoDash(hi);
        assert pieces[i] == PyStr.NatToStr(lo) + "-" + PyStr.NatToStr(hi);
    }
    PyStr.SplitJoin(pieces, ',');
    ExpandFormatted(ss, pieces);
  }

  /** A subrange lo-hi contributes lo, lo+1, ..., hi; written backwards it
      contributes nothing. */
  lemma SpanIds(lo: nat, hi: nat)
    ensures SubrangeIds(FormatSlot(Span(lo, hi))).Ok?
    ensures var ids := SubrangeIds(FormatSlot(Span(lo, hi))).value;
      && |ids| == (if lo <= hi then hi - lo + 1 else 0)
      && forall k :: 0 <= k < |ids| ==> ids[k] == PyStr.NatToStr(lo + k)
  {
    SlotIdsOfFormat(Span(lo, hi));
    NatDecimals(lo, hi + 1);
  }

  /** The docstring's example: '3,5,7-9' -> ['3','5','7','8','9']. */
  lemma DocstringExample()
    ensures ConvertRangeSpec("3,5,7-9") == Ok(["3", "5", "7", "8", "9"])
  {
    var ss := [Single(3), Single(5), Span(7, 9)];
    DocstringText(ss);
    ConvertRangeOfFormat(ss);
    DocstringIds(ss);
  }

  lemma DocstringText(ss: seq<Slot>)
    requires ss == [Single(3), Single(5), Span(7, 9)]
    ensures FormatSlots(ss) == "3,5,7-9"
  {
    assert FormatSlot(ss[0]) == "3" && FormatSlot(ss[1]) == "5" && FormatSlot(ss[2]) == "7-9";
    assert seq(|ss|, i requires 0 <= i < |ss| => FormatSlot(ss[i])) == ["3", "5", "7-9"];
    assert PyStr.Join(["3", "5", "7-9"], ',') == "3,5,7-9";
  }

  lemma DocstringIds(ss: seq<Slot>)
    requires ss == [Single(3), Single(5), Span(7, 9)]
    ensures AllSlotIds(ss) == ["3", "5", "7", "8", "9"]
  {
    assert SlotIds(ss[0]) == ["3"] && SlotIds(ss[1]) == ["5"];
    NatDecimals(7, 10);
    assert PyStr.NatToStr(7) == "7" && PyStr.NatToStr(8) == "8" && PyStr.NatToStr(9) == "9";
    assert SlotIds(ss[2]) == ["7", "8", "9"];
    assert AllSlotIds(ss[2..]) == ["7", "8", "9"] by {
      assert ss[2..][1..] == [];
    }
    assert ss[1..][1..] == ss[2..];
  }

  /** Every comma-separated piece is readable by int() where convert_range
      reads it. */
  predicate PieceParses(piece: string)
  {
    var sub := PyStr.Split(piece, '-');
    PyStr.ParseInt(sub[0]).Some? && (|sub| == 2 ==> PyStr.ParseInt(sub[1]).Some?)
  }

  /** convert_range succeeds exactly when int() accepts every part it reads,
      and raises ValueError otherwise. */
  lemma {:induction false} ConvertRangeFails(pieces: seq<string>)
    ensures ExpandPieces(pieces).Ok? <==> forall i :: 0 <= i < |pieces| ==> PieceParses(pieces[i])
    ensures ExpandPieces(pieces).Err? ==> ExpandPieces(pieces).error == ValueError
    decreases |pieces|
  {
    if |pieces| > 0 {
      ConvertRangeFails(pieces[1..]);
      assert forall i :: 1 <= i < |pieces| ==> pieces[i] == pieces[1..][i - 1];
    }
  }
}
