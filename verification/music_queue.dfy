/** The music player's queue navigation (App.tsx): playing a track by index,
    next and previous. The queue is abstracted to its length, the audio
    element to its current time; `Math.random()` in shuffle mode is an
    input. Starting the audio (which may fail asynchronously) is not part
    of this model. */
module MusicQueue {
  import opened Types
  import opened JsMath

  datatype Player = Player(
    queueLength: nat,
    index: int,        // -1 when no track has been chosen
    mode: PlayMode,
    audioTime: real    // the audio element's current time, in seconds
  )

  predicate Valid(p: Player) {
    -1 <= p.index < p.queueLength
  }

  /** `playTrackAtIndex(i)`: an index outside the queue is ignored;
      otherwise the track becomes current and plays from its start. */
  function PlayTrackAtIndex(p: Player, i: int): (r: Player)
    ensures 0 <= i < p.queueLength ==> r == p.(index := i, audioTime := 0.0)
    ensures !(0 <= i < p.queueLength) ==> r == p
    ensures Valid(p) ==> Valid(r)
  {
    if i < 0 || i >= p.queueLength then p else p.(index := i, audioTime := 0.0)
  }

  /** The index normal mode moves to after i: `(i + 1) % n`. */
  function NextIndex(i: int, n: nat): int
    requires n > 0
  {
    Rem(i + 1, n)
  }

  /** The index moved to before i: `(i - 1 + n) % n`. */
  function PrevIndex(i: int, n: nat): int
    requires n > 0
  {
    Rem(i - 1 + n, n)
  }

  /** `handleMusicNext()`, with `random` the value `Math.random()` returned:
      nothing on an empty queue; in shuffle mode the track at
      `floor(random * n)`; in repeat mode the current track again from its
      start; otherwise the following track, wrapping to the first. */
  function Next(p: Player, random: real): (r: Player)
    ensures p.queueLength == 0 ==> r == p
    ensures p.queueLength > 0 && p.mode == Repeat ==> r == p.(audioTime := 0.0)
    ensures p.queueLength > 0 && p.mode == Normal && p.index >= -1 ==>
      r.index == (p.index + 1) % p.queueLength && r.audioTime == 0.0
    ensures p.queueLength > 0 && p.mode == Shuffle && 0.0 <= random < 1.0 ==>
      0 <= r.index < p.queueLength && r.audioTime == 0.0
    ensures r.queueLength == p.queueLength && r.mode == p.mode
    ensures Valid(p) ==> Valid(r)
  {
    if p.queueLength == 0 then p
    else
      match p.mode
      case Shuffle =>
        ShuffleInRange(random, p.queueLength);
        PlayTrackAtIndex(p, Floor(random * p.queueLength as real))
      case Repeat => p.(audioTime := 0.0)
      case Normal =>
        RemQuot(p.index + 1, p.queueLength);
        PlayTrackAtIndex(p, NextIndex(p.index, p.queueLength))
  }

  lemma ShuffleInRange(random: real, n: nat)
    requires n > 0
    ensures 0.0 <= random < 1.0 ==> 0 <= Floor(random * n as real) < n
  {
    if 0.0 <= random < 1.0 {
      assert random * n as real < n as real;
    }
  }

  /** `handleMusicPrev()`: nothing on an empty queue; after more than 3 s
      of the current track, restart it; otherwise the preceding track,
      wrapping to the last. */
  function Prev(p: Player): (r: Player)
    ensures p.queueLength == 0 ==> r == p
    ensures p.queueLength > 0 && p.audioTime > 3.0 ==> r == p.(audioTime := 0.0)
    ensures p.queueLength > 0 && p.audioTime <= 3.0 && p.index >= 0 ==>
      r.index == (p.index - 1 + p.queueLength) % p.queueLength && r.audioTime == 0.0
    ensures r.queueLength == p.queueLength && r.mode == p.mode
    ensures Valid(p) ==> Valid(r)
  {
    if p.queueLength == 0 then p
    else if p.audioTime > 3.0 then p.(audioTime := 0.0)
    else
      PrevInRange(p.index, p.queueLength);
      PlayTrackAtIndex(p, PrevIndex(p.index, p.queueLength))
  }

  /** On a dividend below twice the divisor the remainder is at most one
      subtraction away. */
  lemma RemBelowTwice(a: int, n: int)
    requires n > 0 && 0 <= a < 2 * n
    ensures Rem(a, n) == if a < n then a else a - n
  {
    RemQuot(a, n);
    if a < n {
      assert a / n == 0;
    } else {
      assert a / n == 1;
    }
  }

  /** From any index at or above -1 both moves land inside the queue. */
  lemma PrevInRange(i: int, n: nat)
    requires n > 0
    ensures i >= -1 ==> 0 <= PrevIndex(i, n) < n
    ensures 0 <= i < n ==> PrevIndex(i, n) == (i - 1 + n) % n == if i == 0 then n - 1 else i - 1
  {
    if i - 1 + n >= 0 {
      RemQuot(i - 1 + n, n);
    }
    if 0 <= i < n {
      RemBelowTwice(i - 1 + n, n);
    }
  }

  lemma NextInRange(i: int, n: nat)
    requires n > 0
    ensures i >= -1 ==> 0 <= NextIndex(i, n) < n && NextIndex(i, n) == (i + 1) % n
    ensures 0 <= i < n ==> NextIndex(i, n) == if i == n - 1 then 0 else i + 1
  {
    if i >= -1 {
      RemQuot(i + 1, n);
    }
    if 0 <= i < n {
      RemBelowTwice(i + 1, n);
    }
  }

  /** Previous undoes next, and next undoes previous, on every index of
      the queue. */
  lemma {:induction false} PrevNextInverse(i: int, n: nat)
    requires n > 0 && 0 <= i < n
    ensures PrevIndex(NextIndex(i, n), n) == i
    ensures NextIndex(PrevIndex(i, n), n) == i
  {
    NextInRange(i, n);
    PrevInRange(i, n);
    PrevInRange(NextIndex(i, n), n);
    NextInRange(PrevIndex(i, n), n);
  }

  /** In normal mode with the audio near the start of a track, stepping
      forward and then back returns to the same track. */
  lemma NextThenPrev(p: Player)
    requires Valid(p) && p.queueLength > 0 && p.index >= 0 && p.mode == Normal
    ensures Prev(Next(p, 0.0)).index == p.index
  {
    NextInRange(p.index, p.queueLength);
    PrevNextInverse(p.index, p.queueLength);
  }
}
