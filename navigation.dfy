/**
 * How the cursor over the slides moves, as pure functions of the slide count
 * and the cursor. The page's handlers apply these to its global cursor.
 */
module Navigation {

  /** Keyboard keys the page reacts to; any other key is ignored. */
  const NextKey := "ArrowRight"
  const PreviousKey := "ArrowLeft"

  /** A cursor position that names an existing slide. */
  predicate InRange(n: nat, c: int)
  {
    0 <= c < n
  }

  /**
   * The cursor after a relative move by `dir` over `n` slides: the move is
   * taken when it lands on a slide, and otherwise the cursor stays put (no
   * wrap-around).
   */
  function Advance(n: nat, c: int, dir: int): (next: int)
    ensures next == c + dir || next == c
    ensures next == c + dir <==> InRange(n, c + dir) || dir == 0
    ensures InRange(n, c) ==> InRange(n, next)
  {
    if InRange(n, c + dir) then c + dir else c
  }

  /** The cursor after a direct jump to `index`: taken exactly when `index` names a slide. */
  function JumpTo(n: nat, c: int, index: int): (next: int)
    ensures next == index || next == c
    ensures next == index <==> InRange(n, index) || index == c
    ensures InRange(n, c) ==> InRange(n, next)
  {
    if InRange(n, index) then index else c
  }

  /** The cursor after one key press: right arrow moves forward, left arrow back, anything else nothing. */
  function OnKey(n: nat, c: int, key: string): (next: int)
    ensures InRange(n, c) ==> InRange(n, next)
    ensures next == c || next == c + 1 || next == c - 1
    ensures next == c + 1 ==> key == NextKey
    ensures next == c - 1 ==> key == PreviousKey
  {
    var afterRight := if key == NextKey then Advance(n, c, 1) else c;
    if key == PreviousKey then Advance(n, afterRight, -1) else afterRight
  }

  /** The two things a visitor can do to move: press a key, or click the dot of a slide. */
  datatype Command = Key(key: string) | Click(index: int)

  function Step(n: nat, c: int, cmd: Command): int
  {
    match cmd
    case Key(k) => OnKey(n, c, k)
    case Click(i) => JumpTo(n, c, i)
  }

  /** The cursor after a whole session of commands, applied in order. */
  function Run(n: nat, c: int, cmds: seq<Command>): int
    decreases |cmds|
  {
    if cmds == [] then c else Run(n, Step(n, c, cmds[0]), cmds[1..])
  }

  /** A session of `k` right-arrow presses. */
  function Rights(k: nat): (r: seq<Command>)
    ensures |r| == k
  {
    seq(k, _ => Key(NextKey))
  }

  /** The arrow keys are exactly `Advance` by one step; every other key is a no-op. */
  lemma KeyMapping(n: nat, c: int, key: string)
    ensures key == NextKey ==> OnKey(n, c, key) == Advance(n, c, 1)
    ensures key == PreviousKey ==> OnKey(n, c, key) == Advance(n, c, -1)
    ensures key != NextKey && key != PreviousKey ==> OnKey(n, c, key) == c
  {
    assert NextKey != PreviousKey by { assert |NextKey| != |PreviousKey|; }
  }

  /** Moving back undoes an accepted move forward, and vice versa. */
  lemma AdvanceUndone(n: nat, c: int, dir: int)
    requires InRange(n, c) && InRange(n, c + dir)
    ensures Advance(n, Advance(n, c, dir), -dir) == c
  {
  }

  /** Starting on a slide, no session of commands ever takes the cursor off the slides. */
  lemma {:induction false} RunStaysInRange(n: nat, c: int, cmds: seq<Command>)
    requires InRange(n, c)
    ensures InRange(n, Run(n, c, cmds))
    decreases |cmds|
  {
    if cmds != [] {
      RunStaysInRange(n, Step(n, c, cmds[0]), cmds[1..]);
    }
  }

  /** Pressing right `k` times from slide `c` stops at the last slide rather than wrapping. */
  lemma {:induction false} RightsReach(n: nat, c: int, k: nat)
    requires InRange(n, c)
    ensures Run(n, c, Rights(k)) == if c + k < n then c + k else n - 1
    decreases k
  {
    if k > 0 {
      KeyMapping(n, c, NextKey);
      assert Rights(k)[1..] == Rights(k - 1);
      RightsReach(n, Advance(n, c, 1), k - 1);
    }
  }

  /** From the cover, three right-arrow presses show slide 3 whenever there are at least four slides. */
  lemma ThreeRightsFromCover(n: nat)
    requires n >= 4
    ensures Run(n, 0, Rights(3)) == 3
  {
    RightsReach(n, 0, 3);
  }

  /** Clicking a dot shows its slide, whatever slide was shown before. */
  lemma ClickReaches(n: nat, c: int, i: int)
    requires InRange(n, i)
    ensures Run(n, c, [Click(i)]) == i
  {
  }
}
