/** The hero section: the slot-machine digit strip of the counters, and the
    filter placed in front of `console.error` to silence the 3D viewer's
    noise. */
module Hero {
  import opened Wrappers

  datatype Direction = Up | Down

  // ---------------------------------------------------------------------
  // The digit strip
  // ---------------------------------------------------------------------

  const Cycles := 2
  const BaseDigits: seq<int> := [0, 1, 2, 3, 4, 5, 6, 7, 8, 9]
  const ReversedDigits: seq<int> := [9, 8, 7, 6, 5, 4, 3, 2, 1, 0]

  /** The end index `Array.prototype.slice(0, end)` uses on an array of
      length `len`: a negative end counts from the back, and both ends
      are clamped to the array. */
  function SliceEnd(len: nat, end: int): (n: nat)
    ensures n <= len
    ensures 0 <= end <= len ==> n == end
  {
    if end < 0 then (if len + end < 0 then 0 else len + end)
    else if end > len then len
    else end
  }

  /** `reversedDigits.indexOf(value)`: -1 when the value is not a digit. */
  function IndexInReversed(value: int): (i: int)
    ensures 0 <= value <= 9 ==> 0 <= i < 10 && ReversedDigits[i] == value
    ensures !(0 <= value <= 9) ==> i == -1
  {
    if 0 <= value <= 9 then 9 - value else -1
  }

  /** How many cells follow the two full cycles. */
  function TailLength(value: int, direction: Direction): (n: nat)
    ensures n <= 10
  {
    match direction
    case Up => SliceEnd(10, value + 1)
    case Down => SliceEnd(10, IndexInReversed(value) + 1)
  }

  /** The digit shown in cell `i`: counting up 0..9 or down 9..0, repeating. */
  function CellAt(direction: Direction, i: nat): (d: int)
    ensures 0 <= d <= 9
  {
    match direction
    case Up => i % 10
    case Down => 9 - i % 10
  }

  /** The strip, cell by cell: two full cycles and then the tail, every
      cell following the same 0..9 (or 9..0) pattern. */
  function Strip(value: int, direction: Direction): (strip: seq<int>)
    ensures |strip| == 10 * Cycles + TailLength(value, direction)
    ensures forall i :: 0 <= i < |strip| ==> strip[i] == CellAt(direction, i)
  {
    seq(10 * Cycles + TailLength(value, direction), i requires i >= 0 => CellAt(direction, i))
  }

  /** The ten digits of one cycle in the given direction. */
  function Digits(direction: Direction): (digits: seq<int>)
    ensures |digits| == 10
  {
    if direction == Up then BaseDigits else ReversedDigits
  }

  /** Cell `j` of cycle `c` holds the cycle's `j`-th digit. */
  lemma CycleCell(direction: Direction, c: nat, j: nat)
    requires j < 10
    ensures CellAt(direction, 10 * c + j) == Digits(direction)[j]
  {
    assert (10 * c + j) % 10 == j;
  }

  /** Every cell follows the pattern of `direction`. */
  predicate CellsFollow(direction: Direction, strip: seq<int>) {
    forall k :: 0 <= k < |strip| ==> strip[k] == CellAt(direction, k)
  }

  /** Appending the start of a cycle after `c` whole cycles keeps the pattern. */
  lemma AppendCycle(direction: Direction, strip: seq<int>, c: nat, n: nat)
    requires |strip| == 10 * c && n <= 10
    requires CellsFollow(direction, strip)
    ensures CellsFollow(direction, strip + Digits(direction)[..n])
  {
    var next := strip + Digits(direction)[..n];
    forall k | 10 * c <= k < |next| ensures next[k] == CellAt(direction, k) {
      CycleCell(direction, c, k - 10 * c);
    }
  }

  /** `SlotDigit`'s memoised strip: the cycles appended in a loop, then the
      slice up to the target digit; `finalIndex` is the last cell. */
  method GenerateStrip(value: int, direction: Direction) returns (strip: seq<int>, finalIndex: int)
    ensures strip == Strip(value, direction)
    ensures finalIndex == |strip| - 1
  {
    var digits := Digits(direction);
    strip := [];
    for i := 0 to Cycles
      invariant |strip| == 10 * i
      invariant CellsFollow(direction, strip)
    {
      AppendCycle(direction, strip, i, 10);
      assert digits[..10] == digits;
      strip := strip + digits;
    }
    var end := if direction == Up then value + 1 else IndexInReversed(value) + 1;
    var tail := digits[..SliceEnd(10, end)];
    AppendCycle(direction, strip, Cycles, |tail|);
    strip := strip + tail;
    finalIndex := |strip| - 1;
  }

  /** The strip opens with two full cycles. */
  lemma {:induction false} StripCycles(value: int, direction: Direction)
    ensures var d := Digits(direction); Strip(value, direction)[..20] == d + d
  {
    var s := Strip(value, direction);
    var d := Digits(direction);
    forall k | 0 <= k < 10 ensures s[k] == (d + d)[k] {
      CycleCell(direction, 0, k);
    }
    forall k | 10 <= k < 20 ensures s[k] == (d + d)[k] {
      CycleCell(direction, 1, k - 10);
    }
  }

  /** For a digit value the cells after the two cycles are the cycle cut
      just after the value, so the last cell is the value. */
  lemma {:induction false} StripTail(value: int, direction: Direction)
    requires 0 <= value <= 9
    ensures var s := Strip(value, direction);
      var d := Digits(direction);
      |s| == 20 + (if direction == Up then value + 1 else 10 - value) &&
      s[20..] == d[..|s| - 20] && s[|s| - 1] == value
  {
    var s := Strip(value, direction);
    var d := Digits(direction);
    forall k | 20 <= k < |s| ensures s[k] == d[k - 20] {
      CycleCell(direction, 2, k - 20);
    }
  }

  /** Counting up to a digit: two cycles and then 0..value, 21 + value cells,
      ending on the value. */
  lemma UpStrip(value: int)
    requires 0 <= value <= 9
    ensures |Strip(value, Up)| == 21 + value
    ensures Strip(value, Up)[|Strip(value, Up)| - 1] == value
    ensures Strip(value, Up)[..20] == BaseDigits + BaseDigits
    ensures Strip(value, Up)[20..] == BaseDigits[..value + 1]
  {
    StripCycles(value, Up);
    StripTail(value, Up);
  }

  /** Counting down to a digit: two cycles and then 9 down to value,
      30 - value cells, ending on the value. */
  lemma DownStrip(value: int)
    requires 0 <= value <= 9
    ensures |Strip(value, Down)| == 30 - value
    ensures Strip(value, Down)[|Strip(value, Down)| - 1] == value
    ensures Strip(value, Down)[..20] == ReversedDigits + ReversedDigits
    ensures Strip(value, Down)[20..] == ReversedDigits[..10 - value]
  {
    StripCycles(value, Down);
    StripTail(value, Down);
  }

  /** The strip's vertical offset once started: the strip moves up by
      `finalIndex` cell heights. */
  function TranslatePercent(isStarted: bool, finalIndex: int): (percent: int)
    ensures !isStarted ==> percent == 0
    ensures isStarted ==> percent % 100 == 0 && percent / 100 == -finalIndex
  {
    if isStarted then -(finalIndex * 100) else 0
  }

  /** Once started, the strip is moved up by exactly `finalIndex` cell
      heights, and that cell holds the target digit; before, it is not
      moved and the first cell (0 counting up, 9 counting down) shows. */
  lemma DigitInView(value: int, direction: Direction, isStarted: bool)
    requires 0 <= value <= 9
    ensures var s := Strip(value, direction);
      var shown := if isStarted then |s| - 1 else 0;
      TranslatePercent(isStarted, |s| - 1) == -100 * shown &&
      s[shown] == (if isStarted then value else CellAt(direction, 0))
  {
    StripTail(value, direction);
  }

  // ---------------------------------------------------------------------
  // The console.error filter
  // ---------------------------------------------------------------------

  /** Whether `t` occurs in `s` (`String.prototype.includes`). */
  function Includes(s: string, t: string): bool
    decreases |s|
  {
    |t| <= |s| && (s[..|t|] == t || Includes(s[1..], t))
  }

  /** `t` occurs in `s` starting at index `i`. */
  predicate OccursAt(s: string, t: string, i: int) {
    0 <= i <= |s| - |t| && s[i..i + |t|] == t
  }

  /** `includes` read as "some window of `s` equals `t`". */
  lemma {:induction false} IncludesAt(s: string, t: string)
    ensures Includes(s, t) <==> exists i :: OccursAt(s, t, i)
    decreases |s|
  {
    if |t| <= |s| {
      if s[..|t|] == t {
        assert OccursAt(s, t, 0);
      } else {
        IncludesAt(s[1..], t);
        if Includes(s[1..], t) {
          var i :| OccursAt(s[1..], t, i);
          assert s[i + 1..i + 1 + |t|] == s[1..][i..i + |t|];
          assert OccursAt(s, t, i + 1);
        }
        forall i | OccursAt(s, t, i) ensures Includes(s[1..], t) {
          assert i != 0;
          assert s[1..][i - 1..i - 1 + |t|] == s[i..i + |t|];
          assert OccursAt(s[1..], t, i - 1);
        }
      }
    }
  }

  /** ASCII case mapping. For the word "spline" this decides the same as
      `toLowerCase`: the only other character whose lower case holds one of
      its letters, U+0130, lowers to 'i' and a combining dot, which cannot
      be followed by 'n'. */
  function LowerChar(c: char): char {
    if 'A' <= c <= 'Z' then (c as int + 32) as char else c
  }

  function ToLower(s: string): (r: string)
    ensures |r| == |s|
  {
    seq(|s|, i requires 0 <= i < |s| => LowerChar(s[i]))
  }

  /** `args[0]?.toString() || ''`; an argument is given by its text, or
      `None` for null or undefined. */
  function ErrorString(args: seq<Option<string>>): (s: string)
    ensures |args| > 0 && args[0].Some? ==> s == args[0].value
    ensures !(|args| > 0 && args[0].Some?) ==> s == ""
  {
    if |args| > 0 && args[0].Some? then args[0].value else ""
  }

  /** Whether the replacement drops a message: it mentions "started",
      "undefined", or the viewer's name in any letter case. */
  function Suppressed(message: string): (suppressed: bool)
    ensures suppressed <==>
      Includes(message, "started") || Includes(message, "undefined") ||
      exists i :: SplineAt(message, i)
  {
    SplineAnyCase(message);
    Includes(message, "started") || Includes(message, "undefined") || Includes(ToLower(message), "spline")
  }

  /** The six letters of `message` from index `i` spell "spline" in some
      letter case. */
  predicate SplineAt(message: string, i: int) {
    0 <= i <= |message| - 6 && ToLower(message[i..i + 6]) == "spline"
  }

  /** Searching the lowered text for "spline" finds a six-letter window
      whose lower case is "spline". */
  lemma SplineAnyCase(message: string)
    ensures Includes(ToLower(message), "spline") <==>
      exists i :: SplineAt(message, i)
  {
    var lower := ToLower(message);
    IncludesAt(lower, "spline");
    if Includes(lower, "spline") {
      var i :| OccursAt(lower, "spline", i);
      assert ToLower(message[i..i + 6]) == lower[i..i + 6];
      assert SplineAt(message, i);
    }
    if exists i :: SplineAt(message, i) {
      var i :| SplineAt(message, i);
      assert lower[i..i + 6] == ToLower(message[i..i + 6]);
      assert OccursAt(lower, "spline", i);
    }
  }

  datatype ConsoleAction = Suppress | Forward(args: seq<Option<string>>)

  /** The replacement `console.error`: drop the message or pass the
      arguments on unchanged. */
  function FilterConsoleError(args: seq<Option<string>>): (a: ConsoleAction)
    ensures a.Suppress? <==> Suppressed(ErrorString(args))
    ensures a.Forward? ==> a.args == args
    ensures args == [] ==> a == Forward(args)
  {
    if Suppressed(ErrorString(args)) then Suppress else Forward(args)
  }

  lemma {:induction false} IncludesExtend(p: string, s: string, q: string, t: string)
    requires Includes(s, t)
    ensures Includes(p + s + q, t)
  {
    IncludesAt(s, t);
    var i :| OccursAt(s, t, i);
    var big := p + s + q;
    assert big[|p| + i..|p| + i + |t|] == s[i..i + |t|];
    assert OccursAt(big, t, |p| + i);
    IncludesAt(big, t);
  }

  /** A suppressed message stays suppressed whatever text surrounds it. */
  lemma SuppressedExtend(p: string, s: string, q: string)
    requires Suppressed(s)
    ensures Suppressed(p + s + q)
  {
    assert ToLower(p + s + q) == ToLower(p) + ToLower(s) + ToLower(q);
    if Includes(s, "started") {
      IncludesExtend(p, s, q, "started");
    } else if Includes(s, "undefined") {
      IncludesExtend(p, s, q, "undefined");
    } else {
      IncludesExtend(ToLower(p), ToLower(s), ToLower(q), "spline");
    }
  }

  /** The viewer's name is silenced in any letter case. */
  lemma SplineSuppressed()
    ensures FilterConsoleError([Some("Spline scene failed")]) == Suppress
  {
    assert ToLower("Spline scene failed")[..6] == "spline";
  }

  /** A message without any of the three words is forwarded unchanged. */
  lemma TimeoutForwarded()
    ensures FilterConsoleError([Some("Timeout")]) == Forward([Some("Timeout")])
  {
    var n := "Timeout";
    assert n[..7][0] != "started"[0];
    assert ToLower(n)[..6][0] == 't' && ToLower(n)[1..][..6][0] == 'i';
  }

  /** Only the first argument is read. */
  lemma FirstArgumentOnly()
    ensures FilterConsoleError([None, Some("started")]) == Forward([None, Some("started")])
  {
  }
}
