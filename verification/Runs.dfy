/** How runs of the order protocol are put together. */
module Runs {
  import opened Protocol

  lemma StepOf(s: State, e: Event, es: seq<Event>)
    requires Possible(s, e) && Legal(Step(s, e), es)
    ensures Legal(s, [e] + es) && Run(s, [e] + es) == Run(Step(s, e), es)
  {
    assert ([e] + es)[0] == e && ([e] + es)[1..] == es;
  }

  /** Running `a` and then `b` is running `a + b`. */
  lemma {:induction false} Glue(s: State, a: seq<Event>, b: seq<Event>)
    requires Legal(s, a) && Legal(Run(s, a), b)
    ensures Legal(s, a + b) && Run(s, a + b) == Run(Run(s, a), b)
    decreases |a|
  {
    if a == [] {
      assert a + b == b;
    } else {
      assert (a + b)[0] == a[0] && (a + b)[1..] == a[1..] + b;
      Glue(Step(s, a[0]), a[1..], b);
    }
  }

  /** A legal run splits into legal runs at any point. */
  lemma {:induction false} Split(s: State, a: seq<Event>, b: seq<Event>)
    requires Legal(s, a + b)
    ensures Legal(s, a) && Legal(Run(s, a), b) && Run(s, a + b) == Run(Run(s, a), b)
    decreases |a|
  {
    if a == [] {
      assert a + b == b;
    } else {
      assert (a + b)[0] == a[0] && (a + b)[1..] == a[1..] + b;
      Split(Step(s, a[0]), a[1..], b);
    }
  }

  /** Three events at once, through states given in advance. */
  lemma Three(s: State, e: Event, f: Event, g: Event, s1: State, s2: State, s3: State)
    requires Possible(s, e) && Step(s, e) == s1 && Possible(s1, f) && Step(s1, f) == s2
    requires Possible(s2, g) && Step(s2, g) == s3
    ensures Legal(s, [e, f, g]) && Run(s, [e, f, g]) == s3
  {
    StepOf(s2, g, []);
    StepOf(s1, f, [g]);
    StepOf(s, e, [f, g]);
    assert [g] + [] == [g] && [f] + [g] == [f, g] && [e] + [f, g] == [e, f, g];
  }

  /** A run goes on by one event. */
  lemma OneMore(s: State, es: seq<Event>, e: Event)
    requires Legal(s, es) && Possible(Run(s, es), e)
    ensures Legal(s, es + [e]) && Run(s, es + [e]) == Step(Run(s, es), e)
  {
    StepOf(Run(s, es), e, []);
    assert [e] + [] == [e];
    Glue(s, es, [e]);
  }

  // ---------------------------------------------------------------------------------------------
  // The start of two concrete runs
  // ---------------------------------------------------------------------------------------------

  const Two: seq<Event> := [New("a", Limit, 1.0, 1.0), New("b", Limit, 1.0, 1.0), Send("a", true)]

  /** A new order, and the same order taken by the agent. */
  const Young := NewOrder(Limit, 1.0, 1.0)
  const Sent := Young.(status := Sending, inFlight := InFlight(1, 0, 0))

  ghost function Pair(a: Order, b: Order, living: set<string>, done: seq<Entry>, exported: seq<Entry>): State {
    State(map["a" := a, "b" := b], living, map[], done, exported, {}, true, [])
  }

  lemma TwoRun()
    ensures Legal(Init, Two) && Run(Init, Two) == Pair(Sent, Young, {"a"}, [], [])
  {
    Three(Init, Two[0], Two[1], Two[2], Init.(orders := map["a" := Young]),
          Pair(Young, Young, {}, [], []), Pair(Sent, Young, {"a"}, [], []));
  }
}
