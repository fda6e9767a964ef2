/**
 * Loading the bicep-curl recording: a header row, then one row per sample
 * whose four fields each hold a quoted `"w,x,y,z"` quaternion. Number
 * parsing (`float`) is an abstract partial function `parse`.
 *
 * The loader appends a row's fields one stream at a time, so a row that
 * fails at field k has already added fields 0..k-1: `LoadAsWritten` keeps
 * that behaviour and `LoadAtomic` is the all-or-nothing skip its warning
 * message describes.
 */
module BicepCurlCsv {
  import opened Wrappers
  import opened Text
  import BicepCurl
  import opened Quaternion

  /** One CSV record as the csv reader returns it. */
  type Row = seq<string>

  type Parser = string -> Option<real>

  /** The four quaternion streams: left forearm, left upper arm, right forearm, right upper arm. */
  datatype Streams = Streams(q1: seq<seq<real>>, q2: seq<seq<real>>, q3: seq<seq<real>>, q4: seq<seq<real>>)

  const NoStreams := Streams([], [], [], [])

  /** Parses every piece, or fails if any piece fails. */
  function ParseAll(pieces: seq<string>, parse: Parser): (r: Option<seq<real>>)
    ensures r.Some? <==> forall i :: 0 <= i < |pieces| ==> parse(pieces[i]).Some?
    ensures r.Some? ==> |r.value| == |pieces|
    ensures r.Some? ==> forall i :: 0 <= i < |pieces| ==> parse(pieces[i]) == Some(r.value[i])
  {
    if |pieces| == 0 then Some([])
    else
      match parse(pieces[0])
      case None => None
      case Some(x) =>
        match ParseAll(pieces[1..], parse)
        case None => None
        case Some(xs) => Some([x] + xs)
  }

  /**
   * Field `k` of a row as `[float(v) for v in row[k].split(',')]`; `None`
   * stands for the IndexError of a missing field or the ValueError of a bad
   * number. The number of components is not checked.
   */
  function Field(row: Row, k: nat, parse: Parser): Option<seq<real>> {
    if k < |row| then ParseAll(Split(row[k], ','), parse) else None
  }

  /** Every one of the four fields of the row parses. */
  predicate RowParses(row: Row, parse: Parser) {
    Field(row, 0, parse).Some? && Field(row, 1, parse).Some? &&
    Field(row, 2, parse).Some? && Field(row, 3, parse).Some?
  }

  /** The row is not empty and its fields 0..k all parse. */
  predicate ParsedThrough(row: Row, k: nat, parse: Parser) {
    |row| > 0 && forall j :: 0 <= j <= k ==> Field(row, j, parse).Some?
  }

  /** The streams are no longer from first to last. */
  predicate Descending(s: Streams) {
    |s.q1| >= |s.q2| >= |s.q3| >= |s.q4|
  }

  predicate Balanced(s: Streams) {
    |s.q1| == |s.q2| == |s.q3| == |s.q4|
  }

  /** `t` extends every stream of `s`. */
  predicate Extends(s: Streams, t: Streams) {
    s.q1 <= t.q1 && s.q2 <= t.q2 && s.q3 <= t.q3 && s.q4 <= t.q4
  }

  /** Appends the row's four parsed fields to the streams. */
  function AppendRow(s: Streams, row: Row, parse: Parser): Streams
    requires RowParses(row, parse)
  {
    Streams(
      s.q1 + [Field(row, 0, parse).value], s.q2 + [Field(row, 1, parse).value],
      s.q3 + [Field(row, 2, parse).value], s.q4 + [Field(row, 3, parse).value])
  }

  /**
   * One data row as the loader handles it: empty rows are skipped, and the
   * fields are appended in order until the first that fails.
   */
  function AddRowAsWritten(s: Streams, row: Row, parse: Parser): (r: Streams)
    ensures ParsedThrough(row, 0, parse) ==> r.q1 == s.q1 + [Field(row, 0, parse).value]
    ensures !ParsedThrough(row, 0, parse) ==> r.q1 == s.q1
    ensures ParsedThrough(row, 1, parse) ==> r.q2 == s.q2 + [Field(row, 1, parse).value]
    ensures !ParsedThrough(row, 1, parse) ==> r.q2 == s.q2
    ensures ParsedThrough(row, 2, parse) ==> r.q3 == s.q3 + [Field(row, 2, parse).value]
    ensures !ParsedThrough(row, 2, parse) ==> r.q3 == s.q3
    ensures ParsedThrough(row, 3, parse) ==> r.q4 == s.q4 + [Field(row, 3, parse).value]
    ensures !ParsedThrough(row, 3, parse) ==> r.q4 == s.q4
    ensures Extends(s, r)
    ensures |r.q1| - |s.q1| >= |r.q2| - |s.q2| >= |r.q3| - |s.q3| >= |r.q4| - |s.q4|
    ensures |r.q1| <= |s.q1| + 1 && |r.q4| >= |s.q4|
    ensures |row| == 0 ==> r == s
    ensures |row| > 0 && RowParses(row, parse) ==> r == AppendRow(s, row, parse)
  {
    if |row| == 0 then s
    else
      match Field(row, 0, parse)
      case None => s
      case Some(a) =>
        var s1 := s.(q1 := s.q1 + [a]);
        match Field(row, 1, parse)
        case None => s1
        case Some(b) =>
          var s2 := s1.(q2 := s1.q2 + [b]);
          match Field(row, 2, parse)
          case None => s2
          case Some(c) =>
            var s3 := s2.(q3 := s2.q3 + [c]);
            match Field(row, 3, parse)
            case None => s3
            case Some(d) => s3.(q4 := s3.q4 + [d])
  }

  /** One data row, skipped as a whole unless all four fields parse. */
  function AddRowAtomic(s: Streams, row: Row, parse: Parser): (r: Streams)
    ensures Balanced(s) ==> Balanced(r)
    ensures Extends(s, r) && |r.q1| <= |s.q1| + 1
    ensures |row| == 0 || !RowParses(row, parse) ==> r == s
  {
    if |row| > 0 && RowParses(row, parse) then AppendRow(s, row, parse) else s
  }

  function FoldAsWritten(s: Streams, rows: seq<Row>, parse: Parser): (r: Streams)
    requires Descending(s)
    ensures Descending(r) && Extends(s, r)
    ensures |r.q1| <= |s.q1| + |rows|
    decreases |rows|
  {
    if |rows| == 0 then s
    else FoldAsWritten(AddRowAsWritten(s, rows[0], parse), rows[1..], parse)
  }

  function FoldAtomic(s: Streams, rows: seq<Row>, parse: Parser): (r: Streams)
    requires Balanced(s)
    ensures Balanced(r) && Extends(s, r)
    ensures |r.q1| <= |s.q1| + |rows|
    decreases |rows|
  {
    if |rows| == 0 then s
    else FoldAtomic(AddRowAtomic(s, rows[0], parse), rows[1..], parse)
  }

  /**
   * The loader as written: an empty file (no header row) gives no streams;
   * otherwise the header is dropped and the data rows are folded in.
   * The streams can end with different lengths, but never a later stream
   * longer than an earlier one.
   */
  function LoadAsWritten(rows: seq<Row>, parse: Parser): (r: Option<Streams>)
    ensures r.None? <==> |rows| == 0
    ensures r.Some? ==> Descending(r.value) && |r.value.q1| < |rows|
  {
    if |rows| == 0 then None else Some(FoldAsWritten(NoStreams, rows[1..], parse))
  }

  /** The corrected loader: the four streams always have the same length. */
  function LoadAtomic(rows: seq<Row>, parse: Parser): (r: Option<Streams>)
    ensures r.None? <==> |rows| == 0
    ensures r.Some? ==> Balanced(r.value) && |r.value.q1| < |rows|
  {
    if |rows| == 0 then None else Some(FoldAtomic(NoStreams, rows[1..], parse))
  }

  // ----- reference definition: the rows that carry data -----

  function NonEmpty(rows: seq<Row>): (r: seq<Row>)
    ensures |r| <= |rows|
    ensures forall i :: 0 <= i < |r| ==> |r[i]| > 0
  {
    if |rows| == 0 then []
    else if |rows[0]| == 0 then NonEmpty(rows[1..])
    else [rows[0]] + NonEmpty(rows[1..])
  }

  predicate AllParse(rows: seq<Row>, parse: Parser) {
    forall i :: 0 <= i < |rows| ==> |rows[i]| == 0 || RowParses(rows[i], parse)
  }

  lemma AllParseTail(rows: seq<Row>, parse: Parser)
    requires |rows| > 0 && AllParse(rows, parse)
    ensures AllParse(rows[1..], parse)
  {
    forall i | 0 <= i < |rows[1..]|
      ensures |rows[1..][i]| == 0 || RowParses(rows[1..][i], parse)
    {
      assert rows[1..][i] == rows[i + 1];
    }
  }

  /** Field `k` of every non-empty row whose field `k` parses, in row order. */
  function ColumnOf(rows: seq<Row>, k: nat, parse: Parser): seq<seq<real>> {
    if |rows| == 0 then []
    else if |rows[0]| == 0 || Field(rows[0], k, parse).None? then ColumnOf(rows[1..], k, parse)
    else [Field(rows[0], k, parse).value] + ColumnOf(rows[1..], k, parse)
  }

  /** When every row parses, each column has one entry per non-empty row. */
  lemma {:induction false} ColumnOfLength(rows: seq<Row>, k: nat, parse: Parser)
    requires k < 4 && AllParse(rows, parse)
    ensures |ColumnOf(rows, k, parse)| == |NonEmpty(rows)|
    decreases |rows|
  {
    if |rows| > 0 {
      AllParseTail(rows, parse);
      ColumnOfLength(rows[1..], k, parse);
      if |rows[0]| > 0 {
        assert RowParses(rows[0], parse);
      }
    }
  }

  /** The four columns of the data rows. */
  function Expected(rows: seq<Row>, parse: Parser): Streams {
    Streams(ColumnOf(rows, 0, parse), ColumnOf(rows, 1, parse), ColumnOf(rows, 2, parse), ColumnOf(rows, 3, parse))
  }

  /** Stream-by-stream concatenation. */
  function Concat(s: Streams, t: Streams): Streams {
    Streams(s.q1 + t.q1, s.q2 + t.q2, s.q3 + t.q3, s.q4 + t.q4)
  }

  /** A parsing row's fields, appended to the streams, start the columns of the rows it heads. */
  lemma ExpectedStep(s: Streams, rows: seq<Row>, parse: Parser)
    requires |rows| > 0 && |rows[0]| > 0 && RowParses(rows[0], parse)
    ensures Concat(AppendRow(s, rows[0], parse), Expected(rows[1..], parse)) == Concat(s, Expected(rows, parse))
  {
    ColumnStep(s.q1, rows, 0, parse);
    ColumnStep(s.q2, rows, 1, parse);
    ColumnStep(s.q3, rows, 2, parse);
    ColumnStep(s.q4, rows, 3, parse);
  }

  /** One column's part of `ExpectedStep`. */
  lemma ColumnStep(q: seq<BicepCurl.Raw>, rows: seq<Row>, k: nat, parse: Parser)
    requires |rows| > 0 && |rows[0]| > 0 && Field(rows[0], k, parse).Some?
    ensures (q + [Field(rows[0], k, parse).value]) + ColumnOf(rows[1..], k, parse) == q + ColumnOf(rows, k, parse)
  {
    assert ColumnOf(rows, k, parse) == [Field(rows[0], k, parse).value] + ColumnOf(rows[1..], k, parse);
  }

  lemma {:induction false} FoldAsWrittenAllParse(s: Streams, rows: seq<Row>, parse: Parser)
    requires Descending(s) && AllParse(rows, parse)
    ensures FoldAsWritten(s, rows, parse) == Concat(s, Expected(rows, parse))
    decreases |rows|
  {
    if |rows| == 0 {
      assert s.q1 + [] == s.q1 && s.q2 + [] == s.q2 && s.q3 + [] == s.q3 && s.q4 + [] == s.q4;
    } else {
      var t := AddRowAsWritten(s, rows[0], parse);
      AllParseTail(rows, parse);
      FoldAsWrittenAllParse(t, rows[1..], parse);
      if |rows[0]| == 0 {
        assert Expected(rows, parse) == Expected(rows[1..], parse);
      } else {
        assert RowParses(rows[0], parse);
        ExpectedStep(s, rows, parse);
      }
    }
  }

  /**
   * When every data row parses, the header is consumed, empty rows add
   * nothing, and stream k holds field k of each non-empty row in order; all
   * four streams then have the length of the non-empty data rows.
   */
  lemma LoadAllParse(rows: seq<Row>, parse: Parser)
    requires |rows| > 0 && AllParse(rows[1..], parse)
    ensures LoadAsWritten(rows, parse) == Some(Expected(rows[1..], parse))
    ensures |LoadAsWritten(rows, parse).value.q1| == |NonEmpty(rows[1..])|
    ensures Balanced(LoadAsWritten(rows, parse).value)
  {
    var d := rows[1..];
    FoldAsWrittenAllParse(NoStreams, d, parse);
    var e := Expected(d, parse);
    assert Concat(NoStreams, e) == e;
    ColumnOfLength(d, 0, parse);
    ColumnOfLength(d, 1, parse);
    ColumnOfLength(d, 2, parse);
    ColumnOfLength(d, 3, parse);
  }

  lemma {:induction false} FoldAtomicAgrees(s: Streams, rows: seq<Row>, parse: Parser)
    requires Balanced(s) && AllParse(rows, parse)
    ensures FoldAtomic(s, rows, parse) == FoldAsWritten(s, rows, parse)
    decreases |rows|
  {
    if |rows| > 0 {
      AllParseTail(rows, parse);
      assert AddRowAtomic(s, rows[0], parse) == AddRowAsWritten(s, rows[0], parse);
      FoldAtomicAgrees(AddRowAtomic(s, rows[0], parse), rows[1..], parse);
    }
  }

  /** On files whose every row parses, the corrected loader returns the same streams. */
  lemma LoadAtomicAgrees(rows: seq<Row>, parse: Parser)
    requires |rows| > 0 && AllParse(rows[1..], parse)
    ensures LoadAtomic(rows, parse) == LoadAsWritten(rows, parse)
  {
    FoldAtomicAgrees(NoStreams, rows[1..], parse);
  }

  // ----- the animation's frame access -----

  /** The animation runs for as many frames as the left-forearm stream holds. */
  function NumFrames(s: Streams): nat {
    |s.q1|
  }

  /** Frame `i` can be read from all four streams. */
  predicate FrameInRange(s: Streams, i: nat) {
    i < |s.q1| && i < |s.q2| && i < |s.q3| && i < |s.q4|
  }

  /** With the corrected loader every frame of the animation is readable. */
  lemma AtomicFramesInRange(rows: seq<Row>, parse: Parser, i: nat)
    requires |rows| > 0 && i < NumFrames(LoadAtomic(rows, parse).value)
    ensures FrameInRange(LoadAtomic(rows, parse).value, i)
  {
  }

  /**
   * The joints of frame `i`: each stream's row is rolled from W-first to
   * X-first order and handed to the frame computation, so the left arm is
   * turned by the W-first rotation of the loaded rows.
   */
  function AnimationPose(s: Streams, i: nat): (b: BicepCurl.Body)
    requires FrameInRange(s, i)
    requires |s.q1[i]| == 4 && |s.q2[i]| == 4 && |s.q3[i]| == 4 && |s.q4[i]| == 4
    ensures b.left.elbow == Add(BicepCurl.LeftShoulder, BicepCurl.RotateWXYZ(BicepCurl.LeftUpperRest, s.q2[i]))
    ensures Sub(b.left.hand, b.left.elbow) == BicepCurl.RotateWXYZ(BicepCurl.LeftForearmRest, s.q1[i])
  {
    BicepCurl.RolledLeftArm(s.q1[i], s.q2[i], s.q3[i], s.q4[i]);
    BicepCurl.FramePose(BicepCurl.RolledFrame(s.q1[i], s.q2[i], s.q3[i], s.q4[i]))
  }

  /**
   * A complete row followed by a row holding only its first field: the
   * loader keeps the partial row in the first stream, so the animation's
   * frame count exceeds the second stream and frame 1 cannot be read.
   */
  lemma ShortRowDesynchronises(header: Row, field: string, parse: Parser)
    requires Field([field], 0, parse).Some?
    ensures var r := LoadAsWritten([header, [field, field, field, field], [field]], parse);
      r.Some? && NumFrames(r.value) == 2 && |r.value.q2| == 1 && !FrameInRange(r.value, 1)
  {
    var rows := [header, [field, field, field, field], [field]];
    var good: Row := [field, field, field, field];
    assert Field(good, 0, parse) == Field([field], 0, parse);
    assert RowParses(good, parse);
    assert Field([field], 1, parse).None?;
    var s1 := AddRowAsWritten(NoStreams, good, parse);
    assert |s1.q1| == 1 && |s1.q2| == 1;
    var s2 := AddRowAsWritten(s1, [field], parse);
    assert |s2.q1| == 2 && |s2.q2| == 1;
    assert rows[1..] == [good, [field]];
    assert FoldAsWritten(NoStreams, rows[1..], parse) == FoldAsWritten(s1, [[field]], parse);
    assert FoldAsWritten(s1, [[field]], parse) == FoldAsWritten(s2, [], parse);
  }
}
