/**
 * The sensor-to-body-position assignment screen of the setup wizard.
 *
 * Every detected sensor is offered in a drop-down as `"<label> (<address>)"`
 * after a placeholder entry; the application reads the address back out of
 * the chosen text, looks the address up among the detected sensors and keeps a
 * set of sensor indices already assigned. Sensors are identified by their
 * Bluetooth address, so the detected sensors are the sequence of their
 * addresses in detection order.
 */
module DeviceSetup {
  import opened Wrappers
  import opened Text
  import opened Sequences

  type Address = string

  /** The first drop-down entry, meaning "nothing chosen". */
  const Placeholder: string := "-- Select Sensor --"

  /** The default label of the sensor detected at `index`: `Sensor_<index+1>`. */
  function DefaultLabel(index: nat): (r: string)
    ensures |r| > 7 && r[..7] == "Sensor_"
    ensures '(' !in r
  {
    "Sensor_" + NatToString(index + 1)
  }

  /** Different sensors get different default labels. */
  lemma DefaultLabelsDistinct(i: nat, j: nat)
    requires i != j
    ensures DefaultLabel(i) != DefaultLabel(j)
  {
    NatToStringInjective(i + 1, j + 1);
    assert DefaultLabel(i)[7..] == NatToString(i + 1);
    assert DefaultLabel(j)[7..] == NatToString(j + 1);
  }

  /** The label shown for the sensor at `index`: the user's label, else the default. */
  function NameOf(names: map<Address, string>, address: Address, index: nat): string {
    if address in names then names[address] else DefaultLabel(index)
  }

  /** The drop-down text of one sensor. */
  function OptionText(name: string, address: Address): string {
    name + " (" + address + ")"
  }

  /** The drop-down entries: the placeholder, then one entry per detected sensor. */
  function SensorOptions(sensors: seq<Address>, names: map<Address, string>): (r: seq<string>)
    ensures |r| == |sensors| + 1 && r[0] == Placeholder
    ensures forall i :: 0 <= i < |sensors| ==>
      r[i + 1] == OptionText(NameOf(names, sensors[i], i), sensors[i])
  {
    [Placeholder] + seq(|sensors|, i requires 0 <= i < |sensors| =>
      OptionText(NameOf(names, sensors[i], i), sensors[i]))
  }

  /** An address as the SDK prints it: no parentheses. */
  predicate PlainAddress(address: Address) {
    '(' !in address && ')' !in address
  }

  // ----- address extraction -----

  /**
   * `address` is what follows the `(` at position `i` of `text`: it holds no
   * parenthesis and runs up to the next parenthesis or the end of the text.
   */
  predicate AddressAt(text: string, i: int, address: Address) {
    0 <= i && i + 1 + |address| <= |text| && text[i] == '('
    && text[i + 1..i + 1 + |address|] == address && PlainAddress(address)
    && (i + 1 + |address| == |text| || text[i + 1 + |address|] in "()")
  }

  /**
   * The extraction the application performs: the text after the FIRST `(` up
   * to the next `)`. A text without `(` makes the indexing fail, which is the
   * `None` case.
   */
  function ExtractAsWritten(text: string): (r: Option<Address>)
    ensures r.None? <==> '(' !in text
    ensures r.Some? ==> PlainAddress(r.value)
    ensures r.Some? ==> exists i :: AddressAt(text, i, r.value) && '(' !in text[..i]
  {
    var pieces := Split(text, '(');
    JoinSplit(text, '(');
    if |pieces| < 2 then None
    else
      var address := Split(pieces[1], ')')[0];
      assert pieces[..1] == [pieces[0]];
      assert text == pieces[0] + "(" + Join(pieces[1..], '(');
      PieceAddress(text, pieces, 1, |pieces[0]|);
      assert text[..|pieces[0]|] == pieces[0];
      Some(address)
  }

  /**
   * The extraction the drop-down format calls for: the text inside the LAST
   * pair of parentheses, which is the one the application appended.
   */
  function ExtractAddress(text: string): (r: Option<Address>)
    ensures r.None? <==> '(' !in text
    ensures r.Some? ==> PlainAddress(r.value)
    ensures r.Some? ==> exists i :: AddressAt(text, i, r.value) && '(' !in text[i + 1..]
  {
    var pieces := Split(text, '(');
    JoinSplit(text, '(');
    if |pieces| < 2 then None
    else
      var n := |pieces|;
      var address := Split(pieces[n - 1], ')')[0];
      JoinLast(pieces, '(');
      var i := |Join(pieces[..n - 1], '(')|;
      assert pieces[n - 1..] == [pieces[n - 1]];
      PieceAddress(text, pieces, n - 1, i);
      assert text[i + 1..] == pieces[n - 1];
      Some(address)
  }

  /**
   * When piece `k > 0` of `text` split at `(` starts right after position `i`,
   * the first `)`-piece of it is the address at `i`.
   */
  lemma PieceAddress(text: string, pieces: seq<string>, k: nat, i: nat)
    requires pieces == Split(text, '(') && 0 < k < |pieces|
    requires text == Join(pieces[..k], '(') + "(" + Join(pieces[k..], '(')
    requires i == |Join(pieces[..k], '(')|
    ensures AddressAt(text, i, Split(pieces[k], ')')[0])
  {
    var address := Split(pieces[k], ')')[0];
    var tail := Join(pieces[k..], '(');
    JoinHead(pieces[k..], '(');
    SplitHead(pieces[k], ')');
    assert pieces[k..][0] == pieces[k];
    assert text[i + 1..] == tail;
    assert tail[..|address|] == address;
    assert '(' !in pieces[k];
    var e := i + 1 + |address|;
    if e < |text| {
      if |address| == |pieces[k]| {
        if |pieces[k..]| > 1 {
          assert tail == pieces[k] + ['('] + Join(pieces[k..][1..], '(');
          assert text[e] == tail[|pieces[k]|];
        }
      } else {
        assert text[e] == pieces[k][|address|];
      }
    }
  }

  /** The first piece of `address + ")"` split at `)` is the address. */
  lemma CloseParenthesis(address: Address)
    requires ')' !in address
    ensures Split(address + ")", ')')[0] == address
  {
    SplitPrefix(address, ")", ')');
  }

  /** A text with no `(` splits into itself alone. */
  lemma SplitWithout(s: string, sep: char)
    requires sep !in s
    ensures Split(s, sep) == [s]
  {
    SplitPrefix(s, "", sep);
    assert s + "" == s;
  }

  /** The placeholder never yields an address, under either extraction. */
  lemma PlaceholderHasNoAddress()
    ensures ExtractAsWritten(Placeholder).None? && ExtractAddress(Placeholder).None?
  {
    assert '(' !in Placeholder by {
      forall i | 0 <= i < |Placeholder|
        ensures Placeholder[i] != '('
      {
      }
    }
  }

  /** The drop-down text split at `(`, for a label with no `(`. */
  lemma OptionPiecesPlainLabel(name: string, address: Address)
    requires '(' !in name && PlainAddress(address)
    ensures Split(OptionText(name, address), '(') == [name + " ", address + ")"]
  {
    var parts := [name + " ", address + ")"];
    assert OptionText(name, address) == Join(parts, '(') by {
      assert Join(parts[1..], '(') == address + ")";
    }
    assert '(' !in name + " ";
    assert '(' !in address + ")";
    SplitJoin(parts, '(');
  }

  /** The as-written extraction recovers the address when the label has no `(`. */
  lemma ExtractAsWrittenRoundTrip(name: string, address: Address)
    requires '(' !in name && PlainAddress(address)
    ensures ExtractAsWritten(OptionText(name, address)) == Some(address)
  {
    OptionPiecesPlainLabel(name, address);
    CloseParenthesis(address);
  }

  /**
   * A label of the form `p(inner)` is misread: the as-written extraction
   * returns `inner` rather than the sensor's address.
   */
  lemma ExtractAsWrittenMisreadsLabel(p: string, inner: string, address: Address)
    requires '(' !in p && PlainAddress(inner) && PlainAddress(address)
    requires inner != address
    ensures ExtractAsWritten(OptionText(p + "(" + inner + ")", address)) == Some(inner)
    ensures ExtractAsWritten(OptionText(p + "(" + inner + ")", address)) != Some(address)
  {
    var name := p + "(" + inner + ")";
    var parts := [p, inner + ") ", address + ")"];
    assert OptionText(name, address) == Join(parts, '(') by {
      assert Join(parts[2..], '(') == address + ")";
      assert Join(parts[1..], '(') == inner + ") " + "(" + address + ")";
    }
    assert '(' !in inner + ") ";
    assert '(' !in address + ")";
    SplitJoin(parts, '(');
    assert Split(OptionText(name, address), '(')[1] == inner + ") ";
    SplitPrefix(inner, ") ", ')');
    assert Split(") ", ')') == [""] + Split(" ", ')');
    assert Split(inner + ") ", ')')[0] == inner + "";
    assert inner + "" == inner;
  }

  /** The corrected extraction recovers the address whatever the label says. */
  lemma ExtractAddressRoundTrip(name: string, address: Address)
    requires PlainAddress(address)
    ensures ExtractAddress(OptionText(name, address)) == Some(address)
  {
    var a := name + " ";
    var b := address + ")";
    assert OptionText(name, address) == a + ['('] + b;
    assert '(' !in b;
    SplitSuffix(a, b, '(');
    CloseParenthesis(address);
  }

  /** On the labels the application can handle both extractions agree. */
  lemma ExtractionsAgree(name: string, address: Address)
    requires '(' !in name && PlainAddress(address)
    ensures ExtractAsWritten(OptionText(name, address)) == ExtractAddress(OptionText(name, address))
  {
    ExtractAsWrittenRoundTrip(name, address);
    ExtractAddressRoundTrip(name, address);
  }

  // ----- selecting a sensor for a position -----

  /**
   * The sensor index a drop-down text stands for, as the application finds
   * it: nothing for the placeholder, for a text without `(` or for an address
   * (read after the first `(`) that was not detected; otherwise the first
   * detected sensor with that address.
   */
  function Resolve(text: string, sensors: seq<Address>): (r: Option<nat>)
    ensures r.Some? <==>
      (text != Placeholder && ExtractAsWritten(text).Some? && ExtractAsWritten(text).value in sensors)
    ensures r.Some? ==>
      (r.value < |sensors| && ExtractAsWritten(text) == Some(sensors[r.value])
        && forall j :: 0 <= j < r.value ==> sensors[j] != sensors[r.value])
  {
    if text == Placeholder then None
    else match ExtractAsWritten(text)
      case None => None
      case Some(address) => FirstIndex(sensors, address)
  }

  /** The same look-up with the address read from the last parentheses. */
  function ResolveCorrected(text: string, sensors: seq<Address>): (r: Option<nat>)
    ensures r.Some? <==>
      (text != Placeholder && ExtractAddress(text).Some? && ExtractAddress(text).value in sensors)
    ensures r.Some? ==>
      (r.value < |sensors| && ExtractAddress(text) == Some(sensors[r.value])
        && forall j :: 0 <= j < r.value ==> sensors[j] != sensors[r.value])
  {
    if text == Placeholder then None
    else match ExtractAddress(text)
      case None => None
      case Some(address) => FirstIndex(sensors, address)
  }

  /**
   * Picking the entry of sensor `i` resolves to `i` when addresses are
   * distinct and the sensor's label holds no `(` (the default labels never do).
   */
  lemma PickingAnEntryResolvesToItsSensor(sensors: seq<Address>, names: map<Address, string>, i: nat)
    requires i < |sensors|
    requires forall k :: 0 <= k < |sensors| ==> PlainAddress(sensors[k])
    requires forall a, b :: 0 <= a < b < |sensors| ==> sensors[a] != sensors[b]
    requires '(' !in NameOf(names, sensors[i], i)
    ensures Resolve(SensorOptions(sensors, names)[i + 1], sensors) == Some(i)
  {
    var text := SensorOptions(sensors, names)[i + 1];
    ExtractAsWrittenRoundTrip(NameOf(names, sensors[i], i), sensors[i]);
    FirstIndexDistinct(sensors, i);
    if text == Placeholder {
      PlaceholderHasNoAddress();
    }
  }

  /**
   * A label `p(a)` that quotes the address `a` of another detected sensor `j`
   * makes the application resolve sensor `i`'s entry to sensor `j`.
   */
  lemma LabelQuotingAnotherAddressResolvesWrongly(sensors: seq<Address>, names: map<Address, string>,
                                                  i: nat, j: nat, p: string)
    requires i < |sensors| && j < |sensors| && i != j
    requires forall k :: 0 <= k < |sensors| ==> PlainAddress(sensors[k])
    requires forall a, b :: 0 <= a < b < |sensors| ==> sensors[a] != sensors[b]
    requires '(' !in p && sensors[i] in names && names[sensors[i]] == p + "(" + sensors[j] + ")"
    ensures Resolve(SensorOptions(sensors, names)[i + 1], sensors) == Some(j)
    ensures ResolveCorrected(SensorOptions(sensors, names)[i + 1], sensors) == Some(i)
  {
    var text := SensorOptions(sensors, names)[i + 1];
    ExtractAsWrittenMisreadsLabel(p, sensors[j], sensors[i]);
    ExtractAddressRoundTrip(names[sensors[i]], sensors[i]);
    FirstIndexDistinct(sensors, i);
    FirstIndexDistinct(sensors, j);
    if text == Placeholder {
      PlaceholderHasNoAddress();
    }
  }

  /** With the corrected look-up every entry resolves to its sensor, whatever its label. */
  lemma PickingAnEntryResolvesCorrected(sensors: seq<Address>, names: map<Address, string>, i: nat)
    requires i < |sensors|
    requires forall k :: 0 <= k < |sensors| ==> PlainAddress(sensors[k])
    requires forall a, b :: 0 <= a < b < |sensors| ==> sensors[a] != sensors[b]
    ensures ResolveCorrected(SensorOptions(sensors, names)[i + 1], sensors) == Some(i)
  {
    var text := SensorOptions(sensors, names)[i + 1];
    ExtractAddressRoundTrip(NameOf(names, sensors[i], i), sensors[i]);
    FirstIndexDistinct(sensors, i);
    if text == Placeholder {
      PlaceholderHasNoAddress();
    }
  }

  /** The assignment screen: the text chosen per position and the indices taken. */
  datatype Screen = Screen(choices: map<string, string>, taken: set<nat>)

  /**
   * The drop-down of position `key` has just been set to `text`: record the
   * text, then assign the resolved sensor unless it is already taken, in which
   * case the drop-down goes back to the placeholder.
   */
  function SelectSensor(s: Screen, sensors: seq<Address>, key: string, text: string): (r: Screen)
    ensures s.taken <= r.taken
    ensures Resolve(text, sensors).None? ==> r == s.(choices := s.choices[key := text])
    ensures Resolve(text, sensors).Some? && Resolve(text, sensors).value in s.taken ==>
      r == s.(choices := s.choices[key := Placeholder])
    ensures Resolve(text, sensors).Some? && Resolve(text, sensors).value !in s.taken ==>
      r.choices == s.choices[key := text]
      && r.taken == s.taken + {Resolve(text, sensors).value}
  {
    var shown := s.choices[key := text];
    match Resolve(text, sensors)
      case None => Screen(shown, s.taken)
      case Some(index) =>
        if index in s.taken then Screen(s.choices[key := Placeholder], s.taken)
        else Screen(shown, s.taken + {index})
  }

  /** Every assigned index names a detected sensor. */
  predicate AssignedInRange(s: Screen, sensors: seq<Address>) {
    forall i :: i in s.taken ==> i < |sensors|
  }

  /** Selecting keeps every assigned index in range and never frees one. */
  lemma SelectSensorKeepsInRange(s: Screen, sensors: seq<Address>, key: string, text: string)
    requires AssignedInRange(s, sensors)
    ensures AssignedInRange(SelectSensor(s, sensors, key, text), sensors)
    ensures |s.taken| <= |SelectSensor(s, sensors, key, text).taken| <= |s.taken| + 1
  {
  }

  /** The same sensor can never be assigned twice in a row. */
  lemma SecondPickOfSameSensorRejected(s: Screen, sensors: seq<Address>, k1: string, k2: string, text: string)
    requires Resolve(text, sensors).Some?
    ensures var r := SelectSensor(SelectSensor(s, sensors, k1, text), sensors, k2, text);
      r.choices[k2] == Placeholder && r.taken == s.taken + {Resolve(text, sensors).value}
  {
  }

  // ----- confirming the assignments -----

  /** The body positions, key and label, in the order the screen lists them. */
  const Positions: seq<(string, string)> := [
    ("upper_right_arm", "Upper Right Arm"),
    ("lower_right_arm", "Lower Right Arm (Forearm)"),
    ("upper_left_arm", "Upper Left Arm"),
    ("lower_left_arm", "Lower Left Arm (Forearm)")]

  /** A confirmed assignment: sensor index, position key and position label. */
  datatype Assignment = Assignment(sensor: nat, key: string, title: string)

  /** Every listed position has a drop-down on the screen. */
  predicate HasAllPositions(choices: map<string, string>, positions: seq<(string, string)>) {
    forall i :: 0 <= i < |positions| ==> positions[i].0 in choices
  }

  /** The assignments for `positions`, in order, skipping those that do not resolve. */
  function Assignments(positions: seq<(string, string)>, choices: map<string, string>, sensors: seq<Address>): (r: seq<Assignment>)
    requires HasAllPositions(choices, positions)
    ensures |r| <= |positions|
    ensures forall a :: a in r ==>
      (a.sensor < |sensors| && a.key in choices && Resolve(choices[a.key], sensors) == Some(a.sensor)
        && exists i :: 0 <= i < |positions| && positions[i] == (a.key, a.title))
    ensures |r| == 0 <==> forall i :: 0 <= i < |positions| ==> Resolve(choices[positions[i].0], sensors).None?
    decreases |positions|
  {
    if |positions| == 0 then []
    else
      var rest := Assignments(positions[1..], choices, sensors);
      var (key, title) := positions[0];
      match Resolve(choices[key], sensors)
        case None =>
          assert forall i :: 1 <= i < |positions| ==> positions[i] == positions[1..][i - 1];
          rest
        case Some(index) =>
          assert forall i :: 1 <= i < |positions| ==> positions[i] == positions[1..][i - 1];
          [Assignment(index, key, title)] + rest
  }

  /** Every position whose choice resolves contributes its assignment. */
  lemma {:induction false} AssignmentsComplete(positions: seq<(string, string)>, choices: map<string, string>,
                                               sensors: seq<Address>, i: nat)
    requires HasAllPositions(choices, positions)
    requires i < |positions| && Resolve(choices[positions[i].0], sensors).Some?
    ensures Assignment(Resolve(choices[positions[i].0], sensors).value, positions[i].0, positions[i].1)
      in Assignments(positions, choices, sensors)
    decreases |positions|
  {
    if i > 0 {
      assert positions[1..][i - 1] == positions[i];
      AssignmentsComplete(positions[1..], choices, sensors, i - 1);
    }
  }

  /**
   * Confirming: `None` (a warning, nothing stored) when no position resolves,
   * otherwise the assignments in position order.
   */
  function ConfirmAssignments(choices: map<string, string>, sensors: seq<Address>): (r: Option<seq<Assignment>>)
    requires HasAllPositions(choices, Positions)
    ensures r.None? <==> forall i :: 0 <= i < |Positions| ==> Resolve(choices[Positions[i].0], sensors).None?
    ensures r.Some? ==> 1 <= |r.value| <= |Positions|
    ensures r.Some? ==> r.value == Assignments(Positions, choices, sensors)
  {
    var confirmed := Assignments(Positions, choices, sensors);
    if |confirmed| == 0 then None else Some(confirmed)
  }

  /** Every position whose choice resolves is among the confirmed assignments. */
  lemma ConfirmAssignmentsComplete(choices: map<string, string>, sensors: seq<Address>, i: nat)
    requires HasAllPositions(choices, Positions)
    requires i < |Positions| && Resolve(choices[Positions[i].0], sensors).Some?
    ensures ConfirmAssignments(choices, sensors).Some?
    ensures Assignment(Resolve(choices[Positions[i].0], sensors).value, Positions[i].0, Positions[i].1)
      in ConfirmAssignments(choices, sensors).value
  {
    AssignmentsComplete(Positions, choices, sensors, i);
  }

  /** A screen where only the placeholder is shown confirms nothing. */
  lemma NothingChosenConfirmsNothing(choices: map<string, string>, sensors: seq<Address>)
    requires HasAllPositions(choices, Positions)
    requires forall i :: 0 <= i < |Positions| ==> choices[Positions[i].0] == Placeholder
    ensures ConfirmAssignments(choices, sensors).None?
  {
  }

  // ----- progress bar -----

  /** The number of wizard steps. */
  const StepCount := 7

  /** Which of the seven step indicators are drawn as done at `step`. */
  function Progress(step: int): (r: seq<bool>)
    ensures |r| == StepCount
    ensures forall i :: 0 <= i < StepCount ==> (r[i] <==> i < step)
  {
    seq(StepCount, i => i < step)
  }

  /** The number of `true` entries. */
  function CountDone(flags: seq<bool>): nat {
    if |flags| == 0 then 0 else (if flags[0] then 1 else 0) + CountDone(flags[1..])
  }

  /** `flags` is a run of `true` of length `k` followed by `false`s. */
  lemma {:induction false} CountDonePrefix(flags: seq<bool>, k: nat)
    requires k <= |flags|
    requires forall i :: 0 <= i < |flags| ==> (flags[i] <==> i < k)
    ensures CountDone(flags) == k
    decreases |flags|
  {
    if |flags| > 0 {
      if k > 0 {
        CountDonePrefix(flags[1..], k - 1);
      } else {
        CountDonePrefix(flags[1..], 0);
      }
    }
  }

  /** At step `s` exactly `s` indicators (clamped to 0..7) are done, and progress is monotone. */
  lemma ProgressCount(s: int, t: int)
    requires s <= t
    ensures CountDone(Progress(s)) == if s < 0 then 0 else if s > StepCount then StepCount else s
    ensures forall i :: 0 <= i < StepCount && Progress(s)[i] ==> Progress(t)[i]
  {
    var k := if s < 0 then 0 else if s > StepCount then StepCount else s;
    CountDonePrefix(Progress(s), k);
  }
}
