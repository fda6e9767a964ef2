/**
 * The command-line tracker manager: choosing detected DOT sensors and
 * labelling them, connecting, calibrating, switching to measurement mode,
 * finding a sensor by label and recording synchronised quaternion rows.
 *
 * A sensor is identified by its Bluetooth address; the SDK's answers
 * (connections, accepted payload modes, calibration outcomes, packets) and
 * the user's typed replies are inputs to the model.
 */
module DotManager {
  import opened Wrappers
  import opened Text
  import opened Sequences
  import opened Quaternion

  type Address = string

  // ----- choosing sensors -----

  /** A chosen sensor: its index among the detected sensors, and its label. */
  datatype Choice = Choice(index: nat, name: string)

  /**
   * The outcome of the selection dialogue: too few sensors detected, the
   * replies ran out before every tracker was chosen (the program would keep
   * waiting for input), or the complete selection.
   */
  datatype Selection = TooFewDevices | AwaitingInput(partial: seq<Choice>) | Selected(chosen: seq<Choice>)

  /** Python's `int(reply)`: `None` for a reply that raises `ValueError`. */
  type IntParser = string -> Option<int>

  /** The default label of the `i`-th tracker chosen: `tracker_<i+1>`. */
  function TrackerLabel(i: nat): (r: string)
    ensures |r| > 8 && r[..8] == "tracker_"
  {
    "tracker_" + NatToString(i + 1)
  }

  /** Different trackers get different default labels. */
  lemma TrackerLabelsDistinct(i: nat, j: nat)
    requires i != j
    ensures TrackerLabel(i) != TrackerLabel(j)
  {
    NatToStringInjective(i + 1, j + 1);
    assert TrackerLabel(i)[8..] == NatToString(i + 1);
    assert TrackerLabel(j)[8..] == NatToString(j + 1);
  }

  /** The label typed for the `i`-th tracker: stripped, or the default when blank. */
  function TypedLabel(reply: string, i: nat): (r: string)
    ensures |r| > 0
  {
    var typed := Strip(reply);
    if typed == "" then TrackerLabel(i) else typed
  }

  /**
   * The label is the reply without its surrounding spaces, unless the reply
   * is all space; then it is the tracker's default label.
   */
  lemma TypedLabelSpec(reply: string, i: nat)
    ensures (forall k :: 0 <= k < |reply| ==> IsSpace(reply[k])) ==> TypedLabel(reply, i) == TrackerLabel(i)
    ensures !(forall k :: 0 <= k < |reply| ==> IsSpace(reply[k])) ==>
      (TypedLabel(reply, i) == Strip(reply) && Contains(reply, TypedLabel(reply, i))
        && !IsSpace(TypedLabel(reply, i)[0]) && !IsSpace(TypedLabel(reply, i)[|TypedLabel(reply, i)| - 1]))
  {
    StripSpec(reply);
  }

  /** A device number the dialogue accepts: a number, in range and not yet chosen. */
  predicate Acceptable(n: Option<int>, used: set<nat>, count: nat) {
    n.Some? && 0 <= n.value < count && n.value as nat !in used
  }

  /** No reply in `replies[from..to]` is an acceptable device number. */
  predicate NoneAcceptable(replies: seq<string>, from: nat, to: int, used: set<nat>, count: nat, parse: IntParser) {
    forall k :: from <= k < to && k < |replies| ==> !Acceptable(parse(replies[k]), used, count)
  }

  /**
   * Reads replies from `pos` until one is an acceptable device number;
   * returns that number and the position after the reply.
   */
  function NextChoice(replies: seq<string>, pos: nat, used: set<nat>, count: nat, parse: IntParser): (r: Option<(nat, nat)>)
    requires pos <= |replies|
    ensures r.Some? ==>
      (pos < r.value.1 <= |replies| && r.value.0 < count && r.value.0 !in used
        && parse(replies[r.value.1 - 1]) == Some(r.value.0 as int))
    ensures r.Some? ==> NoneAcceptable(replies, pos, r.value.1 - 1, used, count, parse)
    ensures r.None? ==> NoneAcceptable(replies, pos, |replies|, used, count, parse)
    decreases |replies| - pos
  {
    if pos == |replies| then None
    else if Acceptable(parse(replies[pos]), used, count) then Some((parse(replies[pos]).value as nat, pos + 1))
    else NextChoice(replies, pos + 1, used, count, parse)
  }

  /** The chosen indices are below `count` and pairwise distinct. */
  predicate DistinctInRange(chosen: seq<Choice>, count: nat) {
    (forall k :: 0 <= k < |chosen| ==> chosen[k].index < count)
    && forall a, b :: 0 <= a < b < |chosen| ==> chosen[a].index != chosen[b].index
  }

  /** Every choice carries a non-empty label. */
  predicate Labelled(chosen: seq<Choice>) {
    forall k :: 0 <= k < |chosen| ==> |chosen[k].name| > 0
  }

  /** The set of indices chosen so far. */
  function Used(chosen: seq<Choice>): (r: set<nat>)
    ensures forall k :: 0 <= k < |chosen| ==> chosen[k].index in r
    ensures forall i :: i in r ==> exists k :: 0 <= k < |chosen| && chosen[k].index == i
  {
    set k | 0 <= k < |chosen| :: chosen[k].index
  }

  /** Adding an unused in-range choice with a label keeps the choices distinct and labelled. */
  lemma AppendChoice(chosen: seq<Choice>, c: Choice, count: nat)
    requires DistinctInRange(chosen, count) && c.index < count && c.index !in Used(chosen)
    requires Labelled(chosen)
    requires |c.name| > 0
    ensures DistinctInRange(chosen + [c], count)
    ensures Labelled(chosen + [c])
    ensures (chosen + [c])[..|chosen|] == chosen
  {
  }

  /**
   * From `pos` on the replies hold no acceptable device number, or the only
   * one is the very last reply, so the label question is still unanswered.
   */
  predicate RanOut(replies: seq<string>, pos: nat, used: set<nat>, count: nat, parse: IntParser)
    requires pos <= |replies|
  {
    var next := NextChoice(replies, pos, used, count, parse);
    next.None? || next.value.1 == |replies|
  }

  /**
   * The next tracker: the first acceptable device number from `pos` and the
   * label typed after it, with the position after the label; nothing when
   * the replies run out first.
   */
  function NextTracker(replies: seq<string>, pos: nat, count: nat, chosen: seq<Choice>, parse: IntParser): (r: Option<(Choice, nat)>)
    requires pos <= |replies|
    ensures r.Some? ==>
      (pos + 2 <= r.value.1 <= |replies| && r.value.0.index < count && r.value.0.index !in Used(chosen)
        && |r.value.0.name| > 0)
    ensures r.None? <==> RanOut(replies, pos, Used(chosen), count, parse)
  {
    match NextChoice(replies, pos, Used(chosen), count, parse)
    case None => None
    case Some((index, next)) =>
      if next == |replies| then None
      else Some((Choice(index, TypedLabel(replies[next], |chosen|)), next + 1))
  }

  /** Chooses trackers `|chosen|` to `num - 1` from the replies starting at `pos`. */
  function SelectFrom(replies: seq<string>, pos: nat, num: nat, count: nat, chosen: seq<Choice>, parse: IntParser): (r: Selection)
    requires pos <= |replies| && |chosen| <= num
    requires DistinctInRange(chosen, count)
    requires Labelled(chosen)
    ensures r != TooFewDevices
    ensures r.Selected? ==>
      (|r.chosen| == num && r.chosen[..|chosen|] == chosen
        && DistinctInRange(r.chosen, count) && Labelled(r.chosen))
    ensures r.AwaitingInput? ==>
      (|chosen| <= |r.partial| < num && r.partial[..|chosen|] == chosen
        && DistinctInRange(r.partial, count) && Labelled(r.partial))
    decreases num - |chosen|
  {
    if |chosen| == num then Selected(chosen)
    else match NextTracker(replies, pos, count, chosen, parse)
      case None => AwaitingInput(chosen)
      case Some((c, next)) =>
        var more := chosen + [c];
        AppendChoice(chosen, c, count);
        var r := SelectFrom(replies, next, num, count, more, parse);
        assert r.Selected? ==> r.chosen[..|chosen|] == r.chosen[..|more|][..|chosen|];
        assert r.AwaitingInput? ==> r.partial[..|chosen|] == r.partial[..|more|][..|chosen|];
        r
  }

  /**
   * The dialogue: too few detected sensors is refused up front; otherwise
   * `num` distinct sensors are chosen, each with a non-empty label, unless
   * the replies run out first.
   */
  function SelectDevices(count: nat, num: nat, replies: seq<string>, parse: IntParser): (r: Selection)
    ensures r == TooFewDevices <==> count < num
    ensures r.Selected? ==>
      (|r.chosen| == num && DistinctInRange(r.chosen, count)
        && Labelled(r.chosen))
    ensures r.AwaitingInput? ==>
      (|r.partial| < num && DistinctInRange(r.partial, count) && Labelled(r.partial))
  {
    if count < num then TooFewDevices
    else SelectFrom(replies, 0, num, count, [], parse)
  }

  /**
   * One tracker: the first acceptable device number is taken, rejected
   * replies before it are skipped, and the reply after it is the label.
   */
  lemma SelectOne(count: nat, bad: seq<string>, pick: string, typed: string, parse: IntParser)
    requires count >= 1
    requires forall k :: 0 <= k < |bad| ==> !Acceptable(parse(bad[k]), {}, count)
    requires Acceptable(parse(pick), {}, count)
    ensures SelectDevices(count, 1, bad + [pick, typed], parse)
      == Selected([Choice(parse(pick).value as nat, TypedLabel(typed, 0))])
  {
    var replies := bad + [pick, typed];
    var c := parse(pick).value as nat;
    assert replies[|bad|] == pick && replies[|bad| + 1] == typed;
    assert Used([]) == {};
    NextChoiceSkips(replies, 0, |bad|, {}, count, parse);
    var more := [Choice(c, TypedLabel(typed, 0))];
    assert SelectFrom(replies, |bad| + 2, 1, count, more, parse) == Selected(more);
    assert SelectFrom(replies, 0, 1, count, [], parse)
      == SelectFrom(replies, |bad| + 2, 1, count, [] + [Choice(c, TypedLabel(replies[|bad| + 1], 0))], parse);
  }

  /** Replies that are not acceptable are skipped. */
  lemma {:induction false} NextChoiceSkips(replies: seq<string>, pos: nat, at: nat, used: set<nat>, count: nat, parse: IntParser)
    requires pos <= at < |replies|
    requires forall k :: pos <= k < at ==> !Acceptable(parse(replies[k]), used, count)
    requires Acceptable(parse(replies[at]), used, count)
    ensures NextChoice(replies, pos, used, count, parse) == Some((parse(replies[at]).value as nat, at + 1))
    decreases at - pos
  {
    if pos < at {
      NextChoiceSkips(replies, pos + 1, at, used, count, parse);
    }
  }

  /**
   * One question-and-answer round of the dialogue: rejected device numbers,
   * the accepted one, then the typed label.
   */
  datatype Round = Round(rejected: seq<string>, pick: string, typed: string)

  /** The replies a sequence of rounds consists of, in order. */
  function Transcript(rounds: seq<Round>): seq<string> {
    if |rounds| == 0 then []
    else rounds[0].rejected + [rounds[0].pick, rounds[0].typed] + Transcript(rounds[1..])
  }

  /** The replies from `pos` on begin with the rounds' replies. */
  predicate ScriptAt(replies: seq<string>, pos: nat, rounds: seq<Round>)
    decreases |rounds|
  {
    |rounds| == 0 ||
    (var b := |rounds[0].rejected|;
      pos + b + 2 <= |replies| && replies[pos..pos + b] == rounds[0].rejected
      && replies[pos + b] == rounds[0].pick && replies[pos + b + 1] == rounds[0].typed
      && ScriptAt(replies, pos + b + 2, rounds[1..]))
  }

  /**
   * Every round's rejected replies are unacceptable and its pick acceptable,
   * given the numbers picked in the rounds before it.
   */
  predicate ValidRounds(rounds: seq<Round>, used: set<nat>, count: nat, parse: IntParser)
    decreases |rounds|
  {
    |rounds| == 0 ||
    ((forall k :: 0 <= k < |rounds[0].rejected| ==> !Acceptable(parse(rounds[0].rejected[k]), used, count))
      && Acceptable(parse(rounds[0].pick), used, count)
      && ValidRounds(rounds[1..], used + {Number(rounds[0].pick, parse)}, count, parse))
  }

  /** The device number a reply names; only ever applied to acceptable replies. */
  function Number(reply: string, parse: IntParser): nat {
    var n := parse(reply);
    if n.Some? && n.value >= 0 then n.value as nat else 0
  }

  /** The choices the rounds stand for; the first gets default label number `start + 1`. */
  function Picked(rounds: seq<Round>, start: nat, parse: IntParser): (r: seq<Choice>)
    ensures |r| == |rounds|
    decreases |rounds|
  {
    if |rounds| == 0 then []
    else
      [Choice(Number(rounds[0].pick, parse), TypedLabel(rounds[0].typed, start))]
        + Picked(rounds[1..], start + 1, parse)
  }

  /** Choosing one more tracker adds its number to the used set. */
  lemma UsedAppend(chosen: seq<Choice>, c: Choice)
    ensures Used(chosen + [c]) == Used(chosen) + {c.index}
  {
    assert (chosen + [c])[|chosen|] == c;
    forall i | i in Used(chosen)
      ensures i in Used(chosen + [c])
    {
      var k :| 0 <= k < |chosen| && chosen[k].index == i;
      assert (chosen + [c])[k] == chosen[k];
    }
  }

  /** A taken choice keeps the invariant and hands the dialogue on to the next position. */
  lemma SelectFromStep(replies: seq<string>, pos: nat, num: nat, count: nat, chosen: seq<Choice>,
                       parse: IntParser, c: Choice, next: nat)
    requires pos <= |replies| && |chosen| < num
    requires DistinctInRange(chosen, count)
    requires Labelled(chosen)
    requires NextTracker(replies, pos, count, chosen, parse) == Some((c, next))
    ensures DistinctInRange(chosen + [c], count) && Labelled(chosen + [c])
    ensures SelectFrom(replies, pos, num, count, chosen, parse)
      == SelectFrom(replies, next, num, count, chosen + [c], parse)
  {
    AppendChoice(chosen, c, count);
  }

  /** One round read from `pos`: the dialogue moves on with the round's choice added. */
  lemma RoundStep(replies: seq<string>, pos: nat, num: nat, count: nat, chosen: seq<Choice>,
                  round: Round, parse: IntParser, c: Choice, next: nat)
    requires next == pos + |round.rejected| + 2 <= |replies|
    requires replies[pos..pos + |round.rejected|] == round.rejected
    requires replies[pos + |round.rejected|] == round.pick
    requires replies[pos + |round.rejected| + 1] == round.typed
    requires |chosen| < num && DistinctInRange(chosen, count)
    requires Labelled(chosen)
    requires forall k :: 0 <= k < |round.rejected| ==> !Acceptable(parse(round.rejected[k]), Used(chosen), count)
    requires Acceptable(parse(round.pick), Used(chosen), count)
    requires c == Choice(Number(round.pick, parse), TypedLabel(round.typed, |chosen|))
    ensures DistinctInRange(chosen + [c], count)
    ensures Labelled(chosen + [c])
    ensures Used(chosen + [c]) == Used(chosen) + {c.index}
    ensures SelectFrom(replies, pos, num, count, chosen, parse)
      == SelectFrom(replies, next, num, count, chosen + [c], parse)
  {
    var b := |round.rejected|;
    forall k | pos <= k < pos + b
      ensures !Acceptable(parse(replies[k]), Used(chosen), count)
    {
      assert replies[k] == replies[pos..pos + b][k - pos];
    }
    NextChoiceSkips(replies, pos, pos + b, Used(chosen), count, parse);
    AppendChoice(chosen, c, count);
    UsedAppend(chosen, c);
    assert NextChoice(replies, pos, Used(chosen), count, parse) == Some((c.index, pos + b + 1));
    assert NextTracker(replies, pos, count, chosen, parse) == Some((c, next));
    SelectFromStep(replies, pos, num, count, chosen, parse, c, next);
  }

  /** Where the first round's replies sit inside the replies of all rounds. */
  lemma TranscriptLayout(replies: seq<string>, pos: nat, rounds: seq<Round>, b: nat, next: nat)
    requires |rounds| > 0 && b == |rounds[0].rejected| && next == pos + b + 2
    requires pos + |Transcript(rounds)| <= |replies|
    requires replies[pos..pos + |Transcript(rounds)|] == Transcript(rounds)
    ensures next + |Transcript(rounds[1..])| <= |replies|
    ensures replies[pos..pos + b] == rounds[0].rejected
    ensures replies[pos + b] == rounds[0].pick
    ensures replies[pos + b + 1] == rounds[0].typed
    ensures replies[next..next + |Transcript(rounds[1..])|] == Transcript(rounds[1..])
  {
    var round := rounds[0];
    var t := Transcript(rounds);
    var tail := Transcript(rounds[1..]);
    var window := replies[pos..pos + |t|];
    assert t == round.rejected + [round.pick, round.typed] + tail;
    assert window == t;
    assert t[..b] == round.rejected;
    assert t[b + 2..] == tail;
    assert replies[pos..pos + b] == window[..b];
    assert replies[pos + b] == window[b];
    assert replies[pos + b + 1] == window[b + 1];
    assert replies[pos + b + 2..pos + b + 2 + |tail|] == window[b + 2..];
  }

  /** Replies holding the transcript of the rounds at `pos` follow their script. */
  lemma {:induction false} TranscriptScript(replies: seq<string>, pos: nat, rounds: seq<Round>)
    requires pos + |Transcript(rounds)| <= |replies|
    requires replies[pos..pos + |Transcript(rounds)|] == Transcript(rounds)
    ensures ScriptAt(replies, pos, rounds)
    decreases |rounds|
  {
    if |rounds| > 0 {
      var b := |rounds[0].rejected|;
      TranscriptLayout(replies, pos, rounds, b, pos + b + 2);
      TranscriptScript(replies, pos + b + 2, rounds[1..]);
    }
  }

  /**
   * Replies made of valid rounds, one per tracker still to choose, give
   * exactly the rounds' picks with their labels; later replies are not read.
   */
  lemma {:induction false} SelectFromRounds(replies: seq<string>, pos: nat, num: nat, count: nat,
                                            chosen: seq<Choice>, rounds: seq<Round>, parse: IntParser, start: nat)
    requires pos <= |replies| && ScriptAt(replies, pos, rounds)
    requires start == |chosen| && start + |rounds| == num
    requires DistinctInRange(chosen, count) && Labelled(chosen)
    requires ValidRounds(rounds, Used(chosen), count, parse)
    ensures SelectFrom(replies, pos, num, count, chosen, parse) == Selected(chosen + Picked(rounds, start, parse))
    decreases |rounds|
  {
    if |rounds| == 0 {
      NoRoundsLeft(replies, pos, num, count, chosen, rounds, parse, start);
    } else {
      var next := pos + |rounds[0].rejected| + 2;
      var c := Choice(Number(rounds[0].pick, parse), TypedLabel(rounds[0].typed, start));
      FirstRound(replies, pos, num, count, chosen, rounds, parse, c, next);
      SelectFromRounds(replies, next, num, count, chosen + [c], rounds[1..], parse, start + 1);
      PickedFirst(chosen, c, rounds, start, parse);
    }
  }

  /** With every tracker chosen the dialogue is over. */
  lemma NoRoundsLeft(replies: seq<string>, pos: nat, num: nat, count: nat, chosen: seq<Choice>,
                     rounds: seq<Round>, parse: IntParser, start: nat)
    requires pos <= |replies| && |rounds| == 0 && |chosen| == num
    requires DistinctInRange(chosen, count) && Labelled(chosen)
    ensures SelectFrom(replies, pos, num, count, chosen, parse) == Selected(chosen + Picked(rounds, start, parse))
  {
    assert chosen + Picked(rounds, start, parse) == chosen;
  }

  /** The first of several valid rounds, read from `pos`. */
  lemma FirstRound(replies: seq<string>, pos: nat, num: nat, count: nat, chosen: seq<Choice>,
                   rounds: seq<Round>, parse: IntParser, c: Choice, next: nat)
    requires |rounds| > 0 && next == pos + |rounds[0].rejected| + 2
    requires ScriptAt(replies, pos, rounds)
    requires |chosen| < num && DistinctInRange(chosen, count) && Labelled(chosen)
    requires ValidRounds(rounds, Used(chosen), count, parse)
    requires c == Choice(Number(rounds[0].pick, parse), TypedLabel(rounds[0].typed, |chosen|))
    ensures DistinctInRange(chosen + [c], count) && Labelled(chosen + [c])
    ensures ValidRounds(rounds[1..], Used(chosen + [c]), count, parse)
    ensures next <= |replies| && ScriptAt(replies, next, rounds[1..])
    ensures SelectFrom(replies, pos, num, count, chosen, parse)
      == SelectFrom(replies, next, num, count, chosen + [c], parse)
  {
    RoundStep(replies, pos, num, count, chosen, rounds[0], parse, c, next);
  }

  /** Taking the first round's choice off the front of the rest. */
  lemma PickedFirst(chosen: seq<Choice>, c: Choice, rounds: seq<Round>, start: nat, parse: IntParser)
    requires |rounds| > 0
    requires c == Choice(Number(rounds[0].pick, parse), TypedLabel(rounds[0].typed, start))
    ensures chosen + Picked(rounds, start, parse) == (chosen + [c]) + Picked(rounds[1..], start + 1, parse)
  {
    var rest := Picked(rounds[1..], start + 1, parse);
    assert Picked(rounds, start, parse) == [c] + rest;
    AppendOne(chosen, c, rest);
  }

  /**
   * The whole dialogue: for every script of valid rounds, one per tracker,
   * the selection is the rounds' picks labelled in order, whatever follows.
   */
  lemma SelectDevicesRounds(count: nat, rounds: seq<Round>, rest: seq<string>, parse: IntParser)
    requires |rounds| <= count
    requires ValidRounds(rounds, {}, count, parse)
    ensures SelectDevices(count, |rounds|, Transcript(rounds) + rest, parse)
      == Selected(Picked(rounds, 0, parse))
  {
    var replies := Transcript(rounds) + rest;
    assert Used([]) == {};
    assert replies[0..|Transcript(rounds)|] == Transcript(rounds);
    TranscriptScript(replies, 0, rounds);
    SelectFromRounds(replies, 0, |rounds|, count, [], rounds, parse, 0);
    assert [] + Picked(rounds, 0, parse) == Picked(rounds, 0, parse);
  }

  /**
   * The dialogue from `pos` read the valid `rounds` and then stopped: the
   * partial selection is their picks, and from the end of their replies on
   * no round can be completed.
   */
  predicate StoppedAfter(replies: seq<string>, pos: nat, chosen: seq<Choice>, rounds: seq<Round>,
                         count: nat, parse: IntParser, partial: seq<Choice>)
  {
    ScriptAt(replies, pos, rounds) && ValidRounds(rounds, Used(chosen), count, parse)
    && partial == chosen + Picked(rounds, |chosen|, parse)
    && pos + |Transcript(rounds)| <= |replies|
    && RanOut(replies, pos + |Transcript(rounds)|, Used(partial), count, parse)
  }

  /** The round the dialogue read between `pos` and `next`. */
  function RoundBetween(replies: seq<string>, pos: nat, next: nat): Round
    requires pos + 2 <= next <= |replies|
  {
    Round(replies[pos..next - 2], replies[next - 2], replies[next - 1])
  }

  /** The round the dialogue read between `pos` and `next` is a valid one, and picks `c`. */
  lemma RoundBetweenValid(replies: seq<string>, pos: nat, next: nat, chosen: seq<Choice>, c: Choice,
                          count: nat, parse: IntParser)
    requires pos + 2 <= next <= |replies|
    requires NextTracker(replies, pos, count, chosen, parse) == Some((c, next))
    ensures var round := RoundBetween(replies, pos, next);
      (forall k :: 0 <= k < |round.rejected| ==> !Acceptable(parse(round.rejected[k]), Used(chosen), count))
      && Acceptable(parse(round.pick), Used(chosen), count)
      && c == Choice(Number(round.pick, parse), TypedLabel(round.typed, |chosen|))
  {
    var round := RoundBetween(replies, pos, next);
    var used := Used(chosen);
    var q := NextChoice(replies, pos, used, count, parse).value;
    assert q.1 == next - 1 && c == Choice(q.0, TypedLabel(replies[next - 1], |chosen|));
    forall k | 0 <= k < |round.rejected|
      ensures !Acceptable(parse(round.rejected[k]), used, count)
    {
      assert round.rejected[k] == replies[pos + k];
    }
  }

  /** A round read from `pos` followed by rounds after which the dialogue stopped. */
  lemma PrependRound(replies: seq<string>, pos: nat, next: nat, chosen: seq<Choice>, c: Choice,
                     rest: seq<Round>, count: nat, parse: IntParser, partial: seq<Choice>)
    requires pos + 2 <= next <= |replies|
    requires NextTracker(replies, pos, count, chosen, parse) == Some((c, next))
    requires StoppedAfter(replies, next, chosen + [c], rest, count, parse, partial)
    ensures StoppedAfter(replies, pos, chosen, [RoundBetween(replies, pos, next)] + rest, count, parse, partial)
  {
    var round := RoundBetween(replies, pos, next);
    var rounds := [round] + rest;
    assert rounds[0] == round && rounds[1..] == rest;
    RoundBetweenValid(replies, pos, next, chosen, c, count, parse);
    assert ValidRounds(rounds, Used(chosen), count, parse) by {
      UsedAppend(chosen, c);
    }
    assert ScriptAt(replies, pos, rounds);
    PickedFirst(chosen, c, rounds, |chosen|, parse);
    assert Transcript(rounds) == round.rejected + [round.pick, round.typed] + Transcript(rest);
  }

  /**
   * The dialogue waits for input only where the replies run out: what it
   * read from `pos` is a script of valid rounds, the partial selection is
   * their picks, and no further round can be completed after them.
   */
  lemma {:induction false} SelectFromStops(replies: seq<string>, pos: nat, num: nat, count: nat,
                                           chosen: seq<Choice>, parse: IntParser)
    requires pos <= |replies| && |chosen| <= num
    requires DistinctInRange(chosen, count) && Labelled(chosen)
    requires SelectFrom(replies, pos, num, count, chosen, parse).AwaitingInput?
    ensures exists rounds :: StoppedAfter(replies, pos, chosen, rounds, count, parse,
      SelectFrom(replies, pos, num, count, chosen, parse).partial)
    decreases num - |chosen|
  {
    var r := SelectFrom(replies, pos, num, count, chosen, parse);
    match NextTracker(replies, pos, count, chosen, parse)
    case None =>
      assert r.partial == chosen + Picked([], |chosen|, parse);
      assert StoppedAfter(replies, pos, chosen, [], count, parse, r.partial);
    case Some((c, next)) =>
      SelectFromStep(replies, pos, num, count, chosen, parse, c, next);
      SelectFromStops(replies, next, num, count, chosen + [c], parse);
      var rest :| StoppedAfter(replies, next, chosen + [c], rest, count, parse, r.partial);
      PrependRound(replies, pos, next, chosen, c, rest, count, parse, r.partial);
  }

  /**
   * The whole dialogue waits for input only where the replies run out: they
   * begin with fewer than `num` valid rounds, whose picks are the partial
   * selection, and no further round can be completed.
   */
  lemma SelectDevicesStops(count: nat, num: nat, replies: seq<string>, parse: IntParser)
    requires SelectDevices(count, num, replies, parse).AwaitingInput?
    ensures exists rounds ::
      |rounds| < num && StoppedAfter(replies, 0, [], rounds, count, parse, SelectDevices(count, num, replies, parse).partial)
  {
    SelectFromStops(replies, 0, num, count, [], parse);
  }

  // ----- connecting: the ordered device table -----

  /** One row of the device table: a sensor's address and its label. */
  datatype Entry = Entry(address: Address, name: string)

  /** The addresses of a table, in insertion order. */
  function Keys(table: seq<Entry>): (r: seq<Address>)
    ensures |r| == |table| && forall i :: 0 <= i < |table| ==> r[i] == table[i].address
  {
    seq(|table|, i requires 0 <= i < |table| => table[i].address)
  }

  /** The labels of a table, in insertion order. */
  function Names(table: seq<Entry>): (r: seq<string>)
    ensures |r| == |table| && forall i :: 0 <= i < |table| ==> r[i] == table[i].name
  {
    seq(|table|, i requires 0 <= i < |table| => table[i].name)
  }

  /** A dictionary keeps each key once. */
  predicate UniqueKeys(table: seq<Entry>) {
    forall a, b :: 0 <= a < b < |table| ==> table[a].address != table[b].address
  }

  /** `table[address]['label']`, or `None` for a missing key. */
  function Lookup(table: seq<Entry>, address: Address): (r: Option<string>)
    ensures r.None? <==> address !in Keys(table)
  {
    match FirstIndex(Keys(table), address)
      case None => None
      case Some(i) => Some(table[i].name)
  }

  /**
   * `table[address] = name` on an insertion-ordered dictionary: an existing
   * key keeps its place, a new key goes last.
   */
  function Put(table: seq<Entry>, address: Address, name: string): (r: seq<Entry>)
    requires UniqueKeys(table)
    ensures UniqueKeys(r)
    ensures address in Keys(table) ==> Keys(r) == Keys(table)
    ensures address !in Keys(table) ==> Keys(r) == Keys(table) + [address]
  {
    match FirstIndex(Keys(table), address)
      case None =>
        var r := table + [Entry(address, name)];
        assert Keys(r) == Keys(table) + [address];
        r
      case Some(i) =>
        var r := table[i := Entry(address, name)];
        assert Keys(r) == Keys(table);
        r
  }

  /** After storing, the key reads back the new label and every other key is unchanged. */
  lemma PutLookup(table: seq<Entry>, address: Address, name: string)
    requires UniqueKeys(table)
    ensures Lookup(Put(table, address, name), address) == Some(name)
    ensures forall b :: b != address ==> Lookup(Put(table, address, name), b) == Lookup(table, b)
  {
    var r := Put(table, address, name);
    match FirstIndex(Keys(table), address)
      case None =>
        assert Keys(r) == Keys(table) + [address];
        forall b | b != address
          ensures Lookup(r, b) == Lookup(table, b)
        {
          match FirstIndex(Keys(table), b)
            case None =>
            case Some(i) => assert Keys(r)[i] == b;
        }
        assert Keys(r)[|table|] == address;
      case Some(i) =>
        assert Keys(r) == Keys(table);
  }

  /** The table built by storing every pair in order. */
  function PutAll(pairs: seq<(Address, string)>): (r: seq<Entry>)
    ensures UniqueKeys(r)
  {
    if |pairs| == 0 then []
    else Put(PutAll(pairs[..|pairs| - 1]), pairs[|pairs| - 1].0, pairs[|pairs| - 1].1)
  }

  /** The addresses of the pairs, in order. */
  function AddressesOf(pairs: seq<(Address, string)>): (r: seq<Address>)
    ensures |r| == |pairs| && forall i :: 0 <= i < |pairs| ==> r[i] == pairs[i].0
  {
    seq(|pairs|, i requires 0 <= i < |pairs| => pairs[i].0)
  }

  /** The manager's bookkeeping: the connected sensors and the device table. */
  datatype Manager = Manager(connected: seq<Address>, table: seq<Entry>)

  /** The bookkeeping after storing the first `k` selected sensors. */
  predicate Prefix(m: Manager, selected: seq<(Address, string)>, k: nat)
    requires k <= |selected|
  {
    m.connected == AddressesOf(selected[..k]) && m.table == PutAll(selected[..k])
  }

  /**
   * Connecting the selected sensors, given the sensors the SDK connected to.
   * Nothing connected fails with the bookkeeping untouched; otherwise the
   * bookkeeping restarts empty and the selected sensors are added in order
   * until one of them is not among the connected ones, which fails.
   */
  method ConnectToDevices(m: Manager, available: seq<Address>, selected: seq<(Address, string)>)
    returns (ok: bool, r: Manager)
    ensures |available| == 0 ==> !ok && r == m
    ensures ok <==> |available| > 0 && forall k :: 0 <= k < |selected| ==> selected[k].0 in available
    ensures ok ==> r.connected == AddressesOf(selected) && r.table == PutAll(selected)
    ensures ok ==> |r.connected| == |selected|
    ensures |available| > 0 && !ok ==>
      exists j :: 0 <= j < |selected| && selected[j].0 !in available && Prefix(r, selected, j)
        && forall i :: 0 <= i < j ==> selected[i].0 in available
  {
    if |available| == 0 {
      return false, m;
    }
    ok, r := ConnectSelected(available, selected);
    if ok {
      assert selected[..|selected|] == selected;
    }
  }

  /**
   * The matching loop of the connection step, starting from empty
   * bookkeeping: the selected sensors are stored in order until the first one
   * that is not connected, so the bookkeeping is that of the stored prefix.
   */
  method ConnectSelected(available: seq<Address>, selected: seq<(Address, string)>)
    returns (ok: bool, r: Manager)
    ensures ok <==> forall k :: 0 <= k < |selected| ==> selected[k].0 in available
    ensures ok ==> Prefix(r, selected, |selected|)
    ensures !ok ==>
      exists j :: 0 <= j < |selected| && selected[j].0 !in available && Prefix(r, selected, j)
        && forall i :: 0 <= i < j ==> selected[i].0 in available
  {
    var k := 0;
    while k < |selected| && selected[k].0 in available
      invariant 0 <= k <= |selected|
      invariant forall j :: 0 <= j < k ==> selected[j].0 in available
    {
      k := k + 1;
    }
    ok := k == |selected|;
    r := Manager(AddressesOf(selected[..k]), PutAll(selected[..k]));
    assert Prefix(r, selected, k);
  }

  /** The table holding exactly the given pairs, in order. */
  function Entries(pairs: seq<(Address, string)>): (r: seq<Entry>)
    ensures |r| == |pairs| && forall i :: 0 <= i < |pairs| ==> r[i] == Entry(pairs[i].0, pairs[i].1)
  {
    seq(|pairs|, i requires 0 <= i < |pairs| => Entry(pairs[i].0, pairs[i].1))
  }

  /** With distinct addresses every selected sensor is stored under its own label, in order. */
  lemma {:induction false} PutAllDistinct(pairs: seq<(Address, string)>)
    requires forall a, b :: 0 <= a < b < |pairs| ==> pairs[a].0 != pairs[b].0
    ensures PutAll(pairs) == Entries(pairs)
    decreases |pairs|
  {
    if |pairs| > 0 {
      var n := |pairs| - 1;
      var init := pairs[..n];
      PutAllDistinct(init);
      var t := Entries(init);
      assert Keys(t) == AddressesOf(init);
      assert pairs[n].0 !in AddressesOf(init) by {
        forall i | 0 <= i < n
          ensures AddressesOf(init)[i] != pairs[n].0
        {
          assert AddressesOf(init)[i] == pairs[i].0;
        }
      }
      assert Put(t, pairs[n].0, pairs[n].1) == t + [Entry(pairs[n].0, pairs[n].1)];
      assert Entries(pairs) == t + [Entry(pairs[n].0, pairs[n].1)];
    }
  }

  /** No row before `i` carries the label. */
  predicate FirstNamed(table: seq<Entry>, i: nat, name: string) {
    forall j :: 0 <= j < i && j < |table| ==> table[j].name != name
  }

  /** `get_device_by_label`: the first table row carrying the label. */
  function GetDeviceByLabel(table: seq<Entry>, name: string): (r: Option<Address>)
    ensures r.None? <==> name !in Names(table)
    ensures r.Some? ==>
      exists i :: 0 <= i < |table| && table[i] == Entry(r.value, name) && FirstNamed(table, i, name)
  {
    match FirstIndex(Names(table), name)
      case None => None
      case Some(i) => Some(table[i].address)
  }

  /**
   * After connecting sensors with distinct addresses and distinct labels,
   * each label finds its own sensor and each sensor's row holds its label.
   */
  lemma ConnectedLookups(selected: seq<(Address, string)>, k: nat)
    requires k < |selected|
    requires forall a, b :: 0 <= a < b < |selected| ==> selected[a].0 != selected[b].0
    requires forall a, b :: 0 <= a < b < |selected| ==> selected[a].1 != selected[b].1
    ensures Lookup(PutAll(selected), selected[k].0) == Some(selected[k].1)
    ensures GetDeviceByLabel(PutAll(selected), selected[k].1) == Some(selected[k].0)
  {
    PutAllDistinct(selected);
    var table := PutAll(selected);
    FirstIndexDistinct(Keys(table), k);
    FirstIndexDistinct(Names(table), k);
  }

  // ----- measurement mode -----

  datatype PayloadMode = ExtendedQuaternion | CompleteQuaternion | OrientationQuaternion

  /** The order in which payload modes are tried. */
  const ModeOrder: seq<PayloadMode> := [ExtendedQuaternion, CompleteQuaternion, OrientationQuaternion]

  /** Every payload mode is among those tried. */
  lemma ModeOrderComplete()
    ensures forall m: PayloadMode :: m in ModeOrder
  {
    forall m: PayloadMode
      ensures m in ModeOrder
    {
      match m
        case ExtendedQuaternion => assert ModeOrder[0] == m;
        case CompleteQuaternion => assert ModeOrder[1] == m;
        case OrientationQuaternion => assert ModeOrder[2] == m;
    }
  }

  /** The first mode, in trying order, that the sensor accepts. */
  function FirstMode(accepts: set<PayloadMode>): (r: Option<PayloadMode>)
    ensures r.None? <==> accepts == {}
    ensures r.Some? ==> r.value in accepts
    ensures r.Some? ==> forall i :: 0 <= i < |ModeOrder| && ModeOrder[i] == r.value ==>
      forall j :: 0 <= j < i ==> ModeOrder[j] !in accepts
  {
    if ExtendedQuaternion in accepts then Some(ExtendedQuaternion)
    else if CompleteQuaternion in accepts then Some(CompleteQuaternion)
    else if OrientationQuaternion in accepts then Some(OrientationQuaternion)
    else
      ModeOrderComplete();
      assert forall m :: m in accepts ==> m in ModeOrder;
      None
  }

  /** The sensors that entered measurement mode, in order, with the mode each started in. */
  function Started(devices: seq<Address>, accepts: Address -> set<PayloadMode>): (r: seq<(Address, PayloadMode)>)
    ensures |r| <= |devices|
    ensures forall e :: e in r ==> e.0 in devices && FirstMode(accepts(e.0)) == Some(e.1)
    ensures forall d :: d in devices && accepts(d) != {} ==> exists e :: e in r && e.0 == d
  {
    if |devices| == 0 then []
    else
      var rest := Started(devices[1..], accepts);
      assert forall d :: d in devices[1..] ==> d in devices;
      assert forall d :: d in devices ==> d == devices[0] || d in devices[1..];
      match FirstMode(accepts(devices[0]))
        case None => rest
        case Some(mode) => [(devices[0], mode)] + rest
  }

  /** Measurement mode succeeds iff at least one sensor started. */
  function StartMeasurementMode(devices: seq<Address>, accepts: Address -> set<PayloadMode>): (r: (bool, seq<(Address, PayloadMode)>))
    ensures r.1 == Started(devices, accepts)
    ensures r.0 <==> exists d :: d in devices && accepts(d) != {}
  {
    var active := Started(devices, accepts);
    if |active| == 0 then (false, active)
    else
      assert active[0] in active;
      (true, active)
  }

  // ----- calibration -----

  /**
   * What the SDK answered for one sensor: configuring it, starting
   * extended-quaternion measurement, and resetting its orientation.
   */
  datatype Outcome = Outcome(configured: bool, started: bool, reset: bool)

  /** The result a calibration thread stores for its sensor. */
  predicate Succeeded(o: Outcome) {
    o.started && o.reset
  }

  /**
   * The results table of the threads, keyed by label, each thread writing in
   * device order: a later sensor with the same label overwrites an earlier one.
   */
  function ResultsByLabel(names: seq<string>, outcomes: seq<Outcome>): (r: map<string, bool>)
    requires |names| == |outcomes|
    ensures forall k :: 0 <= k < |names| ==> names[k] in r
    decreases |names|
  {
    if |names| == 0 then map[]
    else
      var n := |names| - 1;
      var before := ResultsByLabel(names[..n], outcomes[..n]);
      assert forall k :: 0 <= k < n ==> names[..n][k] == names[k];
      before[names[n] := Succeeded(outcomes[n])]
  }

  /** A label's result is that of the last sensor carrying it. */
  lemma {:induction false} ResultsByLabelLast(names: seq<string>, outcomes: seq<Outcome>, k: nat)
    requires |names| == |outcomes| && k < |names| && LastOfLabel(names, k)
    ensures ResultsByLabel(names, outcomes)[names[k]] == Succeeded(outcomes[k])
    decreases |names|
  {
    var n := |names| - 1;
    if k < n {
      assert names[n] != names[k];
      assert names[..n][k] == names[k] && outcomes[..n][k] == outcomes[k];
      assert LastOfLabel(names[..n], k) by {
        assert forall j :: k < j < n ==> names[..n][j] == names[j];
      }
      ResultsByLabelLast(names[..n], outcomes[..n], k);
    }
  }

  /** No later sensor carries the label of sensor `k`. */
  predicate LastOfLabel(names: seq<string>, k: nat) {
    forall j :: k < j < |names| ==> names[j] != names[k]
  }

  /** The last position below `hi` holding `x`, if any. */
  function LastBelow(names: seq<string>, x: string, hi: nat): (r: Option<nat>)
    requires hi <= |names|
    ensures r.Some? ==> r.value < hi && names[r.value] == x && forall i :: r.value < i < hi ==> names[i] != x
    ensures r.None? ==> forall i :: 0 <= i < hi ==> names[i] != x
  {
    if hi == 0 then None
    else if names[hi - 1] == x then Some(hi - 1)
    else LastBelow(names, x, hi - 1)
  }

  /**
   * Every label reads back as a success exactly when the last sensor of each
   * label succeeded.
   */
  lemma ResultsByLabelAllTrue(names: seq<string>, outcomes: seq<Outcome>)
    requires |names| == |outcomes|
    ensures (forall k :: 0 <= k < |names| ==> ResultsByLabel(names, outcomes)[names[k]])
      <==> forall k :: 0 <= k < |names| && LastOfLabel(names, k) ==> Succeeded(outcomes[k])
  {
    var results := ResultsByLabel(names, outcomes);
    forall k | 0 <= k < |names| && LastOfLabel(names, k)
      ensures results[names[k]] == Succeeded(outcomes[k])
    {
      ResultsByLabelLast(names, outcomes, k);
    }
    if forall k :: 0 <= k < |names| && LastOfLabel(names, k) ==> Succeeded(outcomes[k]) {
      forall k | 0 <= k < |names|
        ensures results[names[k]]
      {
        var m := LastBelow(names, names[k], |names|).value;
        assert LastOfLabel(names, m);
      }
    }
  }

  /**
   * Calibration as the manager decides it: one sensor is configured and
   * reset on its own; several are all configured, then the results table is
   * read back once per sensor through its label, so for each label only the
   * last sensor carrying it is looked at.
   */
  function CalibrateAsWritten(names: seq<string>, outcomes: seq<Outcome>): (r: bool)
    requires |names| == |outcomes|
    ensures |outcomes| == 1 ==> (r <==> outcomes[0].configured && outcomes[0].reset)
    ensures |outcomes| != 1 ==>
      (r <==>
        (forall k :: 0 <= k < |outcomes| ==> outcomes[k].configured)
        && (forall k :: 0 <= k < |names| && LastOfLabel(names, k) ==> Succeeded(outcomes[k])))
  {
    if |outcomes| == 1 then outcomes[0].configured && outcomes[0].reset
    else
      var results := ResultsByLabel(names, outcomes);
      ResultsByLabelAllTrue(names, outcomes);
      (forall k :: 0 <= k < |outcomes| ==> outcomes[k].configured)
      && forall k :: 0 <= k < |names| ==> results[names[k]]
  }

  /** Calibration with each sensor's result kept under its own position. */
  function Calibrate(outcomes: seq<Outcome>): (r: bool)
    ensures r <==> forall k :: 0 <= k < |outcomes| ==> Calibrated(outcomes[k], |outcomes| == 1)
    ensures r ==> forall k :: 0 <= k < |outcomes| ==> outcomes[k].configured && outcomes[k].reset
  {
    if |outcomes| == 1 then
      assert Calibrated(outcomes[0], true) <==> outcomes[0].configured && outcomes[0].reset;
      outcomes[0].configured && outcomes[0].reset
    else forall k :: 0 <= k < |outcomes| ==> Calibrated(outcomes[k], false)
  }

  /**
   * One sensor counts as calibrated when it was configured and reset; when
   * several are calibrated together it must also have started measuring.
   */
  predicate Calibrated(o: Outcome, alone: bool) {
    o.configured && o.reset && (alone || o.started)
  }

  /** With distinct labels the label-keyed decision is the per-sensor one. */
  lemma CalibrateAgreesOnDistinctLabels(names: seq<string>, outcomes: seq<Outcome>)
    requires |names| == |outcomes|
    requires forall a, b :: 0 <= a < b < |names| ==> names[a] != names[b]
    ensures CalibrateAsWritten(names, outcomes) == Calibrate(outcomes)
  {
    assert forall k :: 0 <= k < |names| ==> LastOfLabel(names, k);
  }

  /**
   * Two sensors sharing a label: the first fails to reset, the second
   * succeeds, and the label-keyed table reports success.
   */
  lemma SharedLabelMasksFailure(tag: string)
    ensures var outcomes := [Outcome(true, true, false), Outcome(true, true, true)];
      CalibrateAsWritten([tag, tag], outcomes) && !Calibrate(outcomes)
  {
    var outcomes := [Outcome(true, true, false), Outcome(true, true, true)];
    var names := [tag, tag];
    assert names[1] == names[0];
    assert !LastOfLabel(names, 0);
    assert !Calibrated(outcomes[0], false);
  }

  // ----- recording -----

  /** The CSV header: one `<label>_WXYZ` column per connected sensor. */
  function Header(names: seq<string>): (r: seq<string>)
    ensures |r| == |names|
    ensures forall i :: 0 <= i < |names| ==>
      |r[i]| == |names[i]| + 5 && r[i][..|names[i]|] == names[i] && r[i][|names[i]|..] == "_WXYZ"
  {
    seq(|names|, i requires 0 <= i < |names| => names[i] + "_WXYZ")
  }

  /** Distinct labels give distinct column names. */
  lemma HeaderDistinct(names: seq<string>, a: nat, b: nat)
    requires a < b < |names| && names[a] != names[b]
    ensures Header(names)[a] != Header(names)[b]
  {
    var h := Header(names);
    assert |h[a]| != |h[b]| || h[a][..|names[a]|] != h[b][..|names[b]|];
  }

  /** One poll of the packet loop: no packets pending, or each sensor's packet, if any. */
  datatype Poll = NoPackets | Packets(perDevice: seq<Option<Quat>>)

  /** A poll in which every one of the `n` sensors delivered an orientation. */
  predicate Complete(p: Poll, n: nat) {
    p.Packets? && |p.perDevice| == n && forall i :: 0 <= i < n ==> p.perDevice[i].Some?
  }

  /** The row written for a complete poll. */
  function RowOf(p: Poll, n: nat): (r: seq<Quat>)
    requires Complete(p, n)
    ensures |r| == n && forall i :: 0 <= i < n ==> p.perDevice[i] == Some(r[i])
  {
    seq(n, i requires 0 <= i < n => p.perDevice[i].value)
  }

  /** The rows a sequence of polls produces: one per complete poll, in order. */
  function WrittenRows(polls: seq<Poll>, n: nat): (r: seq<seq<Quat>>)
    ensures |r| <= |polls|
    ensures forall j :: 0 <= j < |r| ==> exists k :: 0 <= k < |polls| && Complete(polls[k], n) && r[j] == RowOf(polls[k], n)
  {
    if |polls| == 0 then []
    else
      var m := |polls| - 1;
      var before := WrittenRows(polls[..m], n);
      assert forall k :: 0 <= k < m ==> polls[..m][k] == polls[k];
      if Complete(polls[m], n) then before + [RowOf(polls[m], n)] else before
  }

  /** The number of complete polls. */
  function CountComplete(polls: seq<Poll>, n: nat): nat {
    if |polls| == 0 then 0
    else CountComplete(polls[..|polls| - 1], n) + (if Complete(polls[|polls| - 1], n) then 1 else 0)
  }

  /** Exactly one row per complete poll is written. */
  lemma {:induction false} WrittenRowsCount(polls: seq<Poll>, n: nat)
    ensures |WrittenRows(polls, n)| == CountComplete(polls, n)
    decreases |polls|
  {
    if |polls| > 0 {
      WrittenRowsCount(polls[..|polls| - 1], n);
    }
  }

  /**
   * `record_quaternions_to_csv`: no connected sensor is an error and nothing
   * is written; otherwise the header and then a row for every poll in which
   * all sensors delivered.
   */
  method Record(names: seq<string>, polls: seq<Poll>) returns (r: Option<(seq<string>, seq<seq<Quat>>)>)
    ensures r.None? <==> |names| == 0
    ensures r.Some? ==> r.value.0 == Header(names) && r.value.1 == WrittenRows(polls, |names|)
    ensures r.Some? ==> forall j :: 0 <= j < |r.value.1| ==> |r.value.1[j]| == |names|
  {
    if |names| == 0 {
      return None;
    }
    var n := |names|;
    var rows: seq<seq<Quat>> := [];
    var k := 0;
    while k < |polls|
      invariant 0 <= k <= |polls|
      invariant rows == WrittenRows(polls[..k], n)
    {
      assert polls[..k + 1][..k] == polls[..k];
      var p := polls[k];
      if p.Packets? && |p.perDevice| == n {
        var cells := p.perDevice;
        if forall i :: 0 <= i < n ==> cells[i].Some? {
          rows := rows + [RowOf(p, n)];
        }
      }
      k := k + 1;
    }
    assert polls[..k] == polls;
    WrittenRowsShape(polls, n);
    return Some((Header(names), rows));
  }

  /** Every written row has one quaternion per sensor. */
  lemma WrittenRowsShape(polls: seq<Poll>, n: nat)
    ensures forall j :: 0 <= j < |WrittenRows(polls, n)| ==> |WrittenRows(polls, n)[j]| == n
  {
  }
}
