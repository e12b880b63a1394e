// The brightness chooser of lib/heartbit.py: the bitmap parser
// pattern_to_tuples (lines 66-85), the accelerating clamped loop
// button_held (lines 203-218), the fade transition (lines 178-201) and one
// round of choose_brightness's loop (lines 222-231).
module Heart {
  import opened Sink
  import opened Buttons

  // ---- str.split() -------------------------------------------------------

  /** The whitespace CircuitPython's str.split() splits at, the interpreter
      this board code targets: space and '\t' through '\r'. (CPython also
      splits at '\x1c' through '\x1f' and at non-ASCII whitespace.) */
  predicate IsSpace(c: char)
  {
    c == ' ' || c == '\t' || c == '\n' || c == '\r' || c == '\U{000B}' || c == '\U{000C}'
  }

  /** The length of the run of non-space characters that starts `s`. */
  function TokenLen(s: string): (n: nat)
    ensures n <= |s|
    ensures forall i :: 0 <= i < n ==> !IsSpace(s[i])
    ensures n < |s| ==> IsSpace(s[n])
    ensures |s| > 0 && !IsSpace(s[0]) ==> n >= 1
  {
    if s == [] || IsSpace(s[0]) then 0 else 1 + TokenLen(s[1..])
  }

  /** str.split() with no argument: the maximal runs of non-space
      characters, in order. */
  function Split(s: string): seq<string>
    decreases |s|
  {
    if s == [] then []
    else if IsSpace(s[0]) then Split(s[1..])
    else
      var n := TokenLen(s);
      [s[..n]] + Split(s[n..])
  }

  /** The characters of `s` that are not whitespace, in order. */
  function NonSpace(s: string): (r: string)
    ensures |r| <= |s|
  {
    if s == [] then [] else (if IsSpace(s[0]) then [] else [s[0]]) + NonSpace(s[1..])
  }

  function Flatten(ts: seq<string>): string
  {
    if ts == [] then [] else ts[0] + Flatten(ts[1..])
  }

  lemma {:induction false} NonSpaceAppend(a: string, b: string)
    ensures NonSpace(a + b) == NonSpace(a) + NonSpace(b)
  {
    if a != [] {
      assert (a + b)[1..] == a[1..] + b;
      NonSpaceAppend(a[1..], b);
    } else {
      assert a + b == b;
    }
  }

  lemma {:induction false} NonSpaceOfToken(t: string)
    requires forall i :: 0 <= i < |t| ==> !IsSpace(t[i])
    ensures NonSpace(t) == t
  {
    if t != [] {
      NonSpaceOfToken(t[1..]);
    }
  }

  /** Every token is non-empty and holds no whitespace. */
  lemma {:induction false} SplitTokens(s: string)
    ensures forall k :: 0 <= k < |Split(s)| ==>
              |Split(s)[k]| > 0 && forall i :: 0 <= i < |Split(s)[k]| ==> !IsSpace(Split(s)[k][i])
    decreases |s|
  {
    if s != [] {
      if IsSpace(s[0]) {
        SplitTokens(s[1..]);
      } else {
        SplitTokens(s[TokenLen(s)..]);
      }
    }
  }

  /** The tokens, put back together, are the input with its whitespace
      removed: split loses nothing but whitespace. */
  lemma {:induction false} SplitFlattens(s: string)
    ensures Flatten(Split(s)) == NonSpace(s)
    decreases |s|
  {
    if s != [] {
      if IsSpace(s[0]) {
        SplitFlattens(s[1..]);
      } else {
        var n := TokenLen(s);
        SplitFlattens(s[n..]);
        assert s == s[..n] + s[n..];
        NonSpaceAppend(s[..n], s[n..]);
        NonSpaceOfToken(s[..n]);
        assert ([s[..n]] + Split(s[n..]))[1..] == Split(s[n..]);
      }
    }
  }

  /** Leading whitespace (indentation, blank lines) does not change the
      tokens, so it cannot shift row indices. */
  lemma {:induction false} SplitSkipsLeadingSpace(ws: string, s: string)
    requires forall i :: 0 <= i < |ws| ==> IsSpace(ws[i])
    ensures Split(ws + s) == Split(s)
  {
    if ws != [] {
      assert (ws + s)[1..] == ws[1..] + s;
      SplitSkipsLeadingSpace(ws[1..], s);
    } else {
      assert ws + s == s;
    }
  }

  lemma {:induction false} TokenLenBeforeSpace(a: string, c: char, b: string)
    requires IsSpace(c)
    ensures TokenLen(a + [c] + b) == TokenLen(a)
  {
    if a != [] && !IsSpace(a[0]) {
      assert (a + [c] + b)[1..] == a[1..] + [c] + b;
      TokenLenBeforeSpace(a[1..], c, b);
    } else if a == [] {
      assert a + [c] + b == [c] + b;
    }
  }

  /** One whitespace character separates: the tokens of `a c b` are those of
      `a` followed by those of `b`. */
  lemma {:induction false} SplitAtSpace(a: string, c: char, b: string)
    requires IsSpace(c)
    ensures Split(a + [c] + b) == Split(a) + Split(b)
    decreases |a|
  {
    var s := a + [c] + b;
    if a == [] {
      assert s == [c] + b;
      assert s[1..] == b;
    } else if IsSpace(a[0]) {
      assert s[1..] == a[1..] + [c] + b;
      SplitAtSpace(a[1..], c, b);
    } else {
      var n := TokenLen(a);
      TokenLenBeforeSpace(a, c, b);
      assert s[..n] == a[..n];
      assert s[n..] == a[n..] + [c] + b;
      SplitAtSpace(a[n..], c, b);
    }
  }

  // ---- pattern_to_tuples -------------------------------------------------

  /** The (row, column) cells of `row[..n]` holding '1', left to right. */
  function RowCells(r: int, row: string, n: nat): seq<(int, int)>
    requires n <= |row|
  {
    if n == 0 then []
    else RowCells(r, row, n - 1) + if row[n - 1] == '1' then [(r, n - 1)] else []
  }

  /** The '1' cells of rows[..m], row by row. */
  function GridCells(rows: seq<string>, m: nat): seq<(int, int)>
    requires m <= |rows|
  {
    if m == 0 then [] else GridCells(rows, m - 1) + RowCells(m - 1, rows[m - 1], |rows[m - 1]|)
  }

  /** Row-major order of cells. */
  predicate Before(a: (int, int), b: (int, int))
  {
    a.0 < b.0 || (a.0 == b.0 && a.1 < b.1)
  }

  lemma {:induction false} RowCellsFacts(r: int, row: string, n: nat)
    requires n <= |row|
    ensures forall cell :: cell in RowCells(r, row, n) <==>
              cell.0 == r && 0 <= cell.1 < n && row[cell.1] == '1'
    ensures forall i, j :: 0 <= i < j < |RowCells(r, row, n)| ==> Before(RowCells(r, row, n)[i], RowCells(r, row, n)[j])
    ensures |RowCells(r, row, n)| == multiset(row[..n])['1']
  {
    if n > 0 {
      RowCellsFacts(r, row, n - 1);
      assert row[..n] == row[..n - 1] + [row[n - 1]];
    }
  }

  lemma {:induction false} FlattenSnoc(ts: seq<string>, t: string)
    ensures Flatten(ts + [t]) == Flatten(ts) + t
  {
    if ts == [] {
      assert ts + [t] == [t];
    } else {
      assert (ts + [t])[1..] == ts[1..] + [t];
      FlattenSnoc(ts[1..], t);
    }
  }

  lemma {:induction false} GridCellsMembers(rows: seq<string>, m: nat)
    requires m <= |rows|
    ensures forall cell :: cell in GridCells(rows, m) <==>
              0 <= cell.0 < m && 0 <= cell.1 < |rows[cell.0]| && rows[cell.0][cell.1] == '1'
  {
    if m > 0 {
      GridCellsMembers(rows, m - 1);
      RowCellsFacts(m - 1, rows[m - 1], |rows[m - 1]|);
    }
  }

  lemma {:induction false} GridCellsOrdered(rows: seq<string>, m: nat)
    requires m <= |rows|
    ensures forall i, j :: 0 <= i < j < |GridCells(rows, m)| ==> Before(GridCells(rows, m)[i], GridCells(rows, m)[j])
  {
    if m > 0 {
      GridCellsOrdered(rows, m - 1);
      GridCellsMembers(rows, m - 1);
      var row := rows[m - 1];
      RowCellsFacts(m - 1, row, |row|);
      var a := GridCells(rows, m - 1);
      var b := RowCells(m - 1, row, |row|);
      assert GridCells(rows, m) == a + b;
      forall i, j | 0 <= i < j < |a + b| ensures Before((a + b)[i], (a + b)[j]) {
        if j >= |a| && i < |a| {
          assert (a + b)[i] == a[i] && a[i] in a;
          assert (a + b)[j] == b[j - |a|] && b[j - |a|] in b;
        } else if i >= |a| {
          assert (a + b)[i] == b[i - |a|] && (a + b)[j] == b[j - |a|];
        }
      }
    }
  }

  lemma {:induction false} GridCellsCount(rows: seq<string>, m: nat)
    requires m <= |rows|
    ensures |GridCells(rows, m)| == multiset(Flatten(rows[..m]))['1']
  {
    if m > 0 {
      GridCellsCount(rows, m - 1);
      var row := rows[m - 1];
      RowCellsFacts(m - 1, row, |row|);
      assert row[..|row|] == row;
      assert rows[..m] == rows[..m - 1] + [row];
      FlattenSnoc(rows[..m - 1], row);
    }
  }

  lemma {:induction false} NonSpaceKeepsOnes(s: string)
    ensures multiset(NonSpace(s))['1'] == multiset(s)['1']
  {
    if s != [] {
      NonSpaceKeepsOnes(s[1..]);
      assert s == [s[0]] + s[1..];
    }
  }

  /** The '1' cells of a pattern, row by row. */
  function LitCells(pattern: string): seq<(int, int)>
  {
    GridCells(Split(pattern), |Split(pattern)|)
  }

  /** A cell is listed exactly when its row token holds '1' there; the cells
      come in row-major order; there are as many as the pattern has '1's. */
  lemma PatternCells(pattern: string)
    ensures forall cell :: cell in LitCells(pattern) <==>
              0 <= cell.0 < |Split(pattern)| && 0 <= cell.1 < |Split(pattern)[cell.0]| &&
              Split(pattern)[cell.0][cell.1] == '1'
    ensures forall i, j :: 0 <= i < j < |LitCells(pattern)| ==> Before(LitCells(pattern)[i], LitCells(pattern)[j])
    ensures |LitCells(pattern)| == multiset(pattern)['1']
  {
    var rows := Split(pattern);
    GridCellsMembers(rows, |rows|);
    GridCellsOrdered(rows, |rows|);
    GridCellsCount(rows, |rows|);
    assert rows[..|rows|] == rows;
    SplitFlattens(pattern);
    NonSpaceKeepsOnes(pattern);
  }

  /** pattern_to_tuples: the (row, column) of every '1', rows being the
      whitespace-separated tokens of the pattern. */
  method PatternToTuples(pattern: string) returns (coordinates: seq<(int, int)>)
    ensures forall cell :: cell in coordinates <==>
              0 <= cell.0 < |Split(pattern)| && 0 <= cell.1 < |Split(pattern)[cell.0]| &&
              Split(pattern)[cell.0][cell.1] == '1'
    ensures forall i, j :: 0 <= i < j < |coordinates| ==> Before(coordinates[i], coordinates[j])
    ensures |coordinates| == multiset(pattern)['1']
  {
    var rows := Split(pattern);
    coordinates := [];
    var row_i := 0;
    while row_i < |rows|
      invariant 0 <= row_i <= |rows|
      invariant coordinates == GridCells(rows, row_i)
    {
      var row := rows[row_i];
      ghost var done := coordinates;
      var column_i := 0;
      while column_i < |row|
        invariant 0 <= column_i <= |row|
        invariant coordinates == done + RowCells(row_i, row, column_i)
      {
        if row[column_i] == '1' {
          coordinates := coordinates + [(row_i, column_i)];
        }
        column_i := column_i + 1;
      }
      row_i := row_i + 1;
    }
    PatternCells(pattern);
  }

  // ---- Drawing a pattern -------------------------------------------------

  /** `for row, column in pattern: display.pixel(column, row, level)`. */
  function Pixels(pattern: seq<(int, int)>, level: int): (r: seq<Event>)
    ensures |r| == |pattern|
    ensures forall i :: 0 <= i < |pattern| ==> r[i] == Pixel(pattern[i].1, pattern[i].0, level)
  {
    seq(|pattern|, i requires 0 <= i < |pattern| => Pixel(pattern[i].1, pattern[i].0, level))
  }

  method DrawPattern(display: Display, pattern: seq<(int, int)>, level: int)
    modifies display
    ensures display.log == old(display.log) + Pixels(pattern, level)
  {
    var i := 0;
    while i < |pattern|
      invariant 0 <= i <= |pattern|
      invariant display.log == old(display.log) + Pixels(pattern[..i], level)
    {
      assert Pixels(pattern[..i + 1], level) == Pixels(pattern[..i], level) + [Pixel(pattern[i].1, pattern[i].0, level)];
      display.SetPixel(pattern[i].1, pattern[i].0, level);
      i := i + 1;
    }
    assert pattern[..i] == pattern;
  }

  // ---- button_held -------------------------------------------------------

  /** min(max(v, 0), 255). */
  function Clamp(v: int): (r: int)
    ensures 0 <= r <= 255
    ensures 0 <= v <= 255 ==> r == v
    ensures v < 0 ==> r == 0
    ensures v > 255 ==> r == 255
  {
    if v < 0 then 0 else if v > 255 then 255 else v
  }

  /** The brightness after `k` passes of button_held's loop: pass i adds
      i * step, then clamps. */
  function Held(b: int, step: int, k: nat): int
  {
    if k == 0 then b else Clamp(Held(b, step, k - 1) + k * step)
  }

  /** The display calls of the first `k` passes: each redraws the pattern in
      frame 0 at the new brightness and shows it. */
  function HeldLog(pattern: seq<(int, int)>, b: int, step: int, k: nat): seq<Event>
  {
    if k == 0 then []
    else HeldLog(pattern, b, step, k - 1) + ([Frame(0, false)] + Pixels(pattern, Held(b, step, k)) + [Frame(0, true)])
  }

  /** button_held, with the successive readings of pressed_func as
      `presses`; the button must be released at some reading. */
  method ButtonHeld(display: Display, pattern: seq<(int, int)>, presses: seq<bool>, brightness: int, brightness_step: int)
    returns (r: int)
    requires false in presses
    modifies display
    ensures r == Held(brightness, brightness_step, FirstRelease(presses))
    ensures !presses[0] ==> r == brightness
    ensures presses[0] ==> 0 <= r <= 255
    ensures display.log == old(display.log) + HeldLog(pattern, brightness, brightness_step, FirstRelease(presses))
  {
    ghost var b0 := brightness;
    ghost var n := FirstRelease(presses);
    var level := brightness;
    var step := brightness_step;
    var i := 0;
    while presses[i]
      invariant 0 <= i <= n
      invariant level == Held(b0, brightness_step, i)
      invariant step == (i + 1) * brightness_step
      invariant display.log == old(display.log) + HeldLog(pattern, b0, brightness_step, i)
      decreases n - i
    {
      var change := level + step;
      level := Clamp(change);
      ghost var pre := display.log;
      display.SelectFrame(0, false);
      DrawPattern(display, pattern, level);
      display.SelectFrame(0, true);
      AppendAssoc(pre, [Frame(0, false)], Pixels(pattern, level));
      AppendAssoc(pre, [Frame(0, false)] + Pixels(pattern, level), [Frame(0, true)]);
      AppendAssoc(old(display.log), HeldLog(pattern, b0, brightness_step, i),
                  [Frame(0, false)] + Pixels(pattern, level) + [Frame(0, true)]);
      NextMultiple(i, brightness_step);
      step := step + brightness_step;
      i := i + 1;
    }
    r := level;
  }

  /** With a non-negative step the brightness never falls from one pass to
      the next, with a non-positive one it never rises. */
  lemma HeldMonotone(b: int, step: int, k: nat)
    requires 0 <= b <= 255 && k > 0
    ensures step >= 0 ==> Held(b, step, k) >= Held(b, step, k - 1)
    ensures step <= 0 ==> Held(b, step, k) <= Held(b, step, k - 1)
  {
    if k > 1 {
      assert 0 <= Held(b, step, k - 1) <= 255;
    }
    if step >= 0 {
      MulNonneg(k, step);
    } else {
      MulNonpos(k, step);
    }
  }

  /** 1 + 2 + ... + k. */
  function Tri(k: nat): nat
  {
    if k == 0 then 0 else Tri(k - 1) + k
  }

  lemma {:induction false} TriClosed(k: nat)
    ensures 2 * Tri(k) == k * (k + 1)
  {
    if k > 0 {
      TriClosed(k - 1);
    }
  }

  /** The step grows each pass: while no clamp bites, k passes have added
      step * (1 + 2 + ... + k), that is step * k * (k + 1) / 2. This holds
      for either sign of the step, so for button B's `+step` and for button
      A's `-step` alike. */
  lemma {:induction false} HeldAccelerates(b: int, step: int, k: nat)
    requires 0 <= b <= 255 && 0 <= b + step * Tri(k) <= 255
    ensures Held(b, step, k) == b + step * Tri(k)
  {
    if k > 0 {
      var t := Tri(k - 1);
      MulSplit(step, t, k);
      MulComm(k, step);
      MulComm(t, step);
      if step >= 0 {
        MulNonneg(t, step);
        MulNonneg(k, step);
      } else {
        MulNonpos(t, step);
        MulNonpos(k, step);
      }
      HeldAccelerates(b, step, k - 1);
    }
  }

  lemma NextMultiple(i: int, s: int)
    ensures (i + 2) * s == (i + 1) * s + s
  {
  }

  lemma MulSplit(s: int, t: int, k: int)
    ensures s * (t + k) == s * t + s * k
  {
  }

  lemma MulNonneg(a: int, b: int)
    requires a >= 0 && b >= 0
    ensures a * b >= 0
  {
  }

  lemma MulNonpos(a: int, b: int)
    requires a >= 0 && b <= 0
    ensures a * b <= 0
  {
  }

  lemma MulComm(a: int, b: int)
    ensures a * b == b * a
  {
  }

  /** Concrete case: from 10 and step 5, nine passes reach 235 and the tenth
      is clamped to 255. */
  lemma HeldFromTen()
    ensures Held(10, 5, 9) == 235 && Held(10, 5, 10) == 255
  {
    HeldAccelerates(10, 5, 9);
  }

  // ---- transition --------------------------------------------------------

  /** `old + (brightness - old) // 5`: Dafny's `/` with a positive divisor
      rounds toward negative infinity, as Python's `//` does. */
  function FirstLevel(oldLevel: int, level: int): int
  {
    oldLevel + (level - oldLevel) / 5
  }

  /** The first transition frame lies between the two brightnesses; floor
      division makes small changes asymmetric: a rise of less than 5 leaves
      the first frame at the old level, a fall of less than 5 still lowers
      it by one. */
  lemma FirstLevelBetween(oldLevel: int, level: int)
    ensures oldLevel <= level ==> oldLevel <= FirstLevel(oldLevel, level) <= level
    ensures level <= oldLevel ==> level <= FirstLevel(oldLevel, level) <= oldLevel
    ensures 0 < level - oldLevel < 5 ==> FirstLevel(oldLevel, level) == oldLevel
    ensures 0 < oldLevel - level < 5 ==> FirstLevel(oldLevel, level) == oldLevel - 1
  {
  }

  /** The brightness a transition frame `f` (from 1) is drawn at. */
  function FrameLevel(f: int, oldLevel: int, level: int): int
  {
    if f == 1 then FirstLevel(oldLevel, level) else level
  }

  /** The calls for transition frames 1..n-1: select the frame hidden, fill
      it with the old brightness, draw its pattern. */
  function TransitionDraws(frames: seq<seq<(int, int)>>, oldLevel: int, level: int, n: nat): seq<Event>
    requires n <= 1 || n <= |frames|
  {
    if n <= 1 then []
    else TransitionDraws(frames, oldLevel, level, n - 1) +
         ([Frame(n - 1, false), Fill(oldLevel)] + Pixels(frames[n - 1], FrameLevel(n - 1, oldLevel, level)))
  }

  /** `for frame in range(1, 7): display.frame(frame)` (show defaults to True). */
  function ShowFrames(n: nat): (r: seq<Event>)
    ensures |r| == n
    ensures forall i :: 0 <= i < n ==> r[i] == Frame(i + 1, true)
  {
    seq(n, i requires 0 <= i < n => Frame(i + 1, true))
  }

  /** All display calls of transition. */
  function TransitionLog(frames: seq<seq<(int, int)>>, oldLevel: int, level: int): seq<Event>
  {
    TransitionDraws(frames, oldLevel, level, |frames|) + ShowFrames(6) + [Frame(0, false), Fill(level)]
  }

  /** Every pixel of the transition is drawn at the first level or at the
      target brightness, and every frame is first filled with the old one. */
  lemma {:induction false} TransitionDrawsLevels(frames: seq<seq<(int, int)>>, oldLevel: int, level: int, n: nat)
    requires n <= 1 || n <= |frames|
    ensures forall e :: e in TransitionDraws(frames, oldLevel, level, n) ==>
              (e.Pixel? && (e.level == FirstLevel(oldLevel, level) || e.level == level)) ||
              e == Fill(oldLevel) || (e.Frame? && 1 <= e.index < n && !e.show)
  {
    if n > 1 {
      TransitionDrawsLevels(frames, oldLevel, level, n - 1);
    }
  }

  /** The calls one transition frame makes: select it hidden, fill it with
      the old brightness, draw its pattern at `level`. */
  method DrawTransitionFrame(display: Display, frame: int, pattern: seq<(int, int)>, oldLevel: int, level: int)
    modifies display
    ensures display.log == old(display.log) + ([Frame(frame, false), Fill(oldLevel)] + Pixels(pattern, level))
  {
    display.SelectFrame(frame, false);
    display.FillWith(oldLevel);
    DrawPattern(display, pattern, level);
  }

  /** The first loop of transition, over transition_frames[1:]. */
  method DrawTransitionFrames(display: Display, frames: seq<seq<(int, int)>>, old_brightness: int, brightness: int)
    modifies display
    ensures display.log == old(display.log) + TransitionDraws(frames, old_brightness, brightness, |frames|)
  {
    var step := (brightness - old_brightness) / 5;
    var current := old_brightness + step;
    var frame := 1;
    while frame < |frames|
      invariant 1 <= frame <= if |frames| >= 1 then |frames| else 1
      invariant current == FrameLevel(frame, old_brightness, brightness)
      invariant display.log == old(display.log) + TransitionDraws(frames, old_brightness, brightness, frame)
    {
      DrawTransitionFrame(display, frame, frames[frame], old_brightness, current);
      current := brightness;
      frame := frame + 1;
    }
    assert TransitionDraws(frames, old_brightness, brightness, frame) ==
           TransitionDraws(frames, old_brightness, brightness, |frames|);
  }

  /** The second loop of transition: show frames 1 to 6 in turn. */
  method ShowTransitionFrames(display: Display)
    modifies display
    ensures display.log == old(display.log) + ShowFrames(6)
  {
    var frame := 1;
    while frame < 7
      invariant 1 <= frame <= 7
      invariant display.log == old(display.log) + ShowFrames(frame - 1)
    {
      assert ShowFrames(frame) == ShowFrames(frame - 1) + [Frame(frame, true)];
      display.SelectFrame(frame, true);
      frame := frame + 1;
    }
  }

  /** transition: `frames` is the tuple transition_frames, whose first
      entry is skipped. */
  method Transition(display: Display, frames: seq<seq<(int, int)>>, old_brightness: int, brightness: int)
    modifies display
    ensures display.log == old(display.log) + TransitionLog(frames, old_brightness, brightness)
  {
    DrawTransitionFrames(display, frames, old_brightness, brightness);
    ShowTransitionFrames(display);
    display.SelectFrame(0, false);
    display.FillWith(brightness);
  }

  // ---- choose_brightness -------------------------------------------------

  /** choose_brightness's `step`. */
  const STEP: int := 5

  /** One round of choose_brightness's loop: button A dims, button B
      brightens, and the transition plays only when the brightness changed. */
  method ChooseRound(display: Display, pattern: seq<(int, int)>, frames: seq<seq<(int, int)>>,
                     brightness: int, aPresses: seq<bool>, bPresses: seq<bool>) returns (next: int)
    requires false in aPresses && false in bPresses
    modifies display
    ensures var dimmed := Held(brightness, -STEP, FirstRelease(aPresses));
            next == Held(dimmed, STEP, FirstRelease(bPresses)) &&
            display.log == old(display.log) + HeldLog(pattern, brightness, -STEP, FirstRelease(aPresses)) +
                           HeldLog(pattern, dimmed, STEP, FirstRelease(bPresses)) +
                           (if next != brightness then TransitionLog(frames, brightness, next) else [])
    ensures 0 <= brightness <= 255 ==> 0 <= next <= 255
    ensures !aPresses[0] && !bPresses[0] ==> next == brightness && display.log == old(display.log)
  {
    var old_brightness := brightness;
    var dimmed := ButtonHeld(display, pattern, aPresses, old_brightness, -STEP);
    next := ButtonHeld(display, pattern, bPresses, dimmed, STEP);
    if old_brightness != next {
      Transition(display, frames, old_brightness, next);
    }
  }
}
