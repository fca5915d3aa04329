/**
 * The phosphor-decay effect `ageLastLines()`: among the last 200 lines of
 * the feed, each line's decay class is chosen by its age, the distance
 * from the newest line. A line's class list is a set of class names; the
 * feed is the array of the class lists of all `.line` elements in
 * document order.
 */
module Decay {
  import opened Wrappers

  /** How many of the newest lines are restyled. */
  const Window: nat := 200

  const DecayClasses: set<string> := {"decay1", "decay2", "decay3"}

  /** The decay class of a line at a given age, if any. */
  function DecayFor(age: nat): (c: Option<string>)
    ensures c.Some? ==> c.value in DecayClasses
  {
    if age > 120 then Some("decay3")
    else if age > 60 then Some("decay2")
    else if age > 30 then Some("decay1")
    else None
  }

  /** The decay classes a line at a given age ends up with. */
  function DecaySet(age: nat): (r: set<string>)
    ensures r <= DecayClasses
  {
    match DecayFor(age)
    case Some(c) => {c}
    case None => {}
  }

  /** A line past age 30 gets exactly one decay class, a younger one none. */
  lemma DecaySetSize(age: nat)
    ensures |DecaySet(age)| == if age > 30 then 1 else 0
  {
  }

  /** A line's classes after its decay classes are removed and its own one added. */
  function Restyled(classes: set<string>, age: nat): set<string> {
    (classes - DecayClasses) + DecaySet(age)
  }

  /**
   * A restyled line's decay classes are exactly the one its age picks,
   * and its other classes are the ones it had.
   */
  lemma RestyledClasses(classes: set<string>, age: nat)
    ensures Restyled(classes, age) * DecayClasses == DecaySet(age)
    ensures Restyled(classes, age) - DecayClasses == classes - DecayClasses
  {
  }

  /** Index of the oldest line in the window `slice(-200)`. */
  function WindowStart(n: nat): (start: nat)
    ensures start <= n && n - start <= Window
    ensures n - start == if n < Window then n else Window
  {
    if n > Window then n - Window else 0
  }

  /** The class lists of the feed after `ageLastLines()`. */
  function Aged(lines: seq<set<string>>): (r: seq<set<string>>)
    ensures |r| == |lines|
  {
    seq(|lines|, j requires 0 <= j < |lines| =>
      if j >= WindowStart(|lines|) then Restyled(lines[j], |lines| - 1 - j) else lines[j])
  }

  /**
   * A line in the window ends with exactly the decay class its age picks
   * (decay3 past 120, decay2 past 60, decay1 past 30, none up to 30), and
   * keeps all its other classes.
   */
  lemma AgedInWindow(lines: seq<set<string>>, j: nat)
    requires WindowStart(|lines|) <= j < |lines|
    ensures var age := |lines| - 1 - j;
      && Aged(lines)[j] * DecayClasses == DecaySet(age)
      && Aged(lines)[j] - DecayClasses == lines[j] - DecayClasses
      && (age > 120 ==> Aged(lines)[j] * DecayClasses == {"decay3"})
      && (60 < age <= 120 ==> Aged(lines)[j] * DecayClasses == {"decay2"})
      && (30 < age <= 60 ==> Aged(lines)[j] * DecayClasses == {"decay1"})
      && (age <= 30 ==> Aged(lines)[j] * DecayClasses == {})
  {
    var age := |lines| - 1 - j;
    var r := Aged(lines)[j];
    assert r == Restyled(lines[j], age);
    assert DecaySet(age) <= DecayClasses;
    assert r * DecayClasses == DecaySet(age);
  }

  /** Lines older than the window are left as they were. */
  lemma AgedOutsideWindow(lines: seq<set<string>>, j: nat)
    requires j < WindowStart(|lines|)
    ensures Aged(lines)[j] == lines[j]
  {
  }

  /** Restyling a line twice at the same age is restyling it once. */
  lemma RestyledIdempotent(classes: set<string>, age: nat)
    ensures Restyled(Restyled(classes, age), age) == Restyled(classes, age)
  {
    assert DecaySet(age) <= DecayClasses;
  }

  /** Running `ageLastLines()` twice gives what running it once gives. */
  lemma AgedIdempotent(lines: seq<set<string>>)
    ensures Aged(Aged(lines)) == Aged(lines)
  {
    var once := Aged(lines);
    forall j | 0 <= j < |lines|
      ensures Aged(once)[j] == once[j]
    {
      if j >= WindowStart(|lines|) {
        RestyledIdempotent(lines[j], |lines| - 1 - j);
      }
    }
  }

  /**
   * `ageLastLines()` on the document's lines: remove every decay class in
   * the window, then walk it from the newest line back, adding the class
   * for each line's age.
   */
  method AgeLastLines(lines: array<set<string>>)
    modifies lines
    ensures lines[..] == Aged(old(lines[..]))
  {
    var n := lines.Length;
    var start := WindowStart(n);
    var m := n - start;
    ghost var before := lines[..];
    var k := 0;
    while k < m
      invariant 0 <= k <= m
      invariant forall j :: 0 <= j < n ==>
        lines[j] == if start <= j < start + k then before[j] - DecayClasses else before[j]
    {
      lines[start + k] := lines[start + k] - DecayClasses;
      k := k + 1;
    }
    var i: int := m - 1;
    var step: nat := 0;
    while i >= 0
      invariant -1 <= i < m
      invariant step == m - 1 - i
      invariant forall j :: 0 <= j < n ==>
        lines[j] == if start + i < j then Restyled(before[j], n - 1 - j)
                    else if start <= j then before[j] - DecayClasses
                    else before[j]
    {
      if step > 120 {
        lines[start + i] := lines[start + i] + {"decay3"};
      } else if step > 60 {
        lines[start + i] := lines[start + i] + {"decay2"};
      } else if step > 30 {
        lines[start + i] := lines[start + i] + {"decay1"};
      }
      i := i - 1;
      step := step + 1;
    }
    assert lines[..] == Aged(before);
  }
}
