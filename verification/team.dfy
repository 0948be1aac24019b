/**
 * The team carousel: an index into the team list that "next" and "prev"
 * move with wrap-around, and the horizontal offset of the slider track.
 */
module Team {

  /** Number of members the section lists. */
  const TeamSize: nat := 7

  /** Width of one card plus its margins, in rem. */
  const CardWidthRem: nat := 22

  datatype Direction = Prev | Next

  /** `slideTeam`'s update of the index for a team of `n` members. */
  function Step(i: int, dir: Direction, n: nat): (j: int)
    requires n > 0 && 0 <= i < n
    ensures 0 <= j < n
    ensures dir == Next ==> (i < n - 1 ==> j == i + 1) && (i == n - 1 ==> j == 0)
    ensures dir == Prev ==> (i > 0 ==> j == i - 1) && (i == 0 ==> j == n - 1)
  {
    match dir
    case Prev => if i == 0 then n - 1 else i - 1
    case Next => if i == n - 1 then 0 else i + 1
  }

  /** "prev" undoes "next" and "next" undoes "prev". */
  lemma StepsUndo(i: int, n: nat)
    requires n > 0 && 0 <= i < n
    ensures Step(Step(i, Next, n), Prev, n) == i
    ensures Step(Step(i, Prev, n), Next, n) == i
  {
  }

  /** `k` presses of "next". */
  function NextTimes(i: int, k: nat, n: nat): (j: int)
    requires n > 0 && 0 <= i < n
    ensures 0 <= j < n
  {
    if k == 0 then i else Step(NextTimes(i, k - 1, n), Next, n)
  }

  /** Up to `n` presses of "next" advance the index by `k`, wrapping once past the end. */
  lemma {:induction false} NextTimesWraps(i: int, k: nat, n: nat)
    requires n > 0 && 0 <= i < n && k <= n
    ensures NextTimes(i, k, n) == if i + k < n then i + k else i + k - n
  {
    if k > 0 {
      NextTimesWraps(i, k - 1, n);
    }
  }

  /** `n` presses of "next" come back to the start. */
  lemma FullCycle(i: int, n: nat)
    requires n > 0 && 0 <= i < n
    ensures NextTimes(i, n, n) == i
  {
    NextTimesWraps(i, n, n);
  }

  /** The slider track's shift, `currentIndex * 22` rem, for a valid index. */
  function SliderOffset(i: int, n: nat): (offset: int)
    requires n > 0 && 0 <= i < n
    ensures 0 <= offset <= CardWidthRem * (n - 1)
    ensures offset % CardWidthRem == 0
    ensures offset / CardWidthRem == i
  {
    i * CardWidthRem
  }

  /** The track follows the index: "next" shifts it by one card, and from the last card back to the start. */
  lemma SliderFollowsStep(i: int, n: nat)
    requires n > 0 && 0 <= i < n
    ensures i < n - 1 ==> SliderOffset(Step(i, Next, n), n) == SliderOffset(i, n) + CardWidthRem
    ensures i == n - 1 ==> SliderOffset(Step(i, Next, n), n) == 0
    ensures i > 0 ==> SliderOffset(Step(i, Prev, n), n) == SliderOffset(i, n) - CardWidthRem
    ensures i == 0 ==> SliderOffset(Step(i, Prev, n), n) == CardWidthRem * (n - 1)
  {
  }

  class TeamSlider {
    const size: nat
    var currentIndex: int

    predicate Valid()
      reads this
    {
      size > 0 && 0 <= currentIndex < size
    }

    /** The index starts at the first member. */
    constructor (size: nat)
      requires size > 0
      ensures this.size == size && currentIndex == 0 && Valid()
    {
      this.size := size;
      currentIndex := 0;
    }

    /** `slideTeam(direction)`. */
    method Slide(dir: Direction)
      requires Valid()
      modifies this
      ensures Valid()
      ensures currentIndex == Step(old(currentIndex), dir, size)
    {
      currentIndex := Step(currentIndex, dir, size);
    }
  }

  /** On the team section, "prev" from the first card shows the last of the seven members. */
  method PrevFromFirst() returns (index: int)
    ensures index == TeamSize - 1
  {
    var slider := new TeamSlider(TeamSize);
    slider.Slide(Prev);
    index := slider.currentIndex;
  }
}
