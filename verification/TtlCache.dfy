/**
 The deduplicator: a map of first-seen times with a time to live, cleaned in the background.

 Several channels add keys while a goroutine cleans. An add looks the key up and, if its entry has expired,
 renews it in a second step; a cleanup tick looks at the keys one by one and deletes the expired ones in the
 end. All these steps interleave. The yardstick is an ideal cache that is never cleaned and adds in one step.
 */
module TtlCaches {
  import opened Common

  const CLEANUP_THRESHOLD := 1000

  type Entries = map<string, int>

  // ---------------------------------------------------------------------------------------------
  // The cache, and the ideal cache
  // ---------------------------------------------------------------------------------------------

  predicate Fresh(m: Entries, key: string, now: int, ttl: int) {
    key !in m || now - m[key] > ttl
  }

  /** Channel `who` found an expired entry at time `stamp` and has yet to write that time. */
  datatype Renewal = Renewal(who: nat, key: string, stamp: int)

  /** The entries, the keys a cleanup tick under way has marked, and the renewals under way. */
  datatype Cache = Cache(entries: Entries, marked: Option<set<string>>, renewing: set<Renewal>)

  datatype Event =
    | Look(at: int, who: nat, key: string)
    | Renew(at: int, who: nat, key: string, stamp: int)
    | Scan(at: int)
    | Mark(at: int, key: string, now: int)
    | Sweep(at: int)

  /** The look finds an expired entry. */
  predicate FindsExpired(c: Cache, e: Event, ttl: int) {
    e.Look? && e.key in c.entries && e.at - c.entries[e.key] > ttl
  }

  function Next(c: Cache, e: Event, ttl: int): Cache {
    match e
    case Look(at, who, key) =>
      if key !in c.entries then c.(entries := c.entries[key := at])
      else if at - c.entries[key] > ttl then c.(renewing := c.renewing + {Renewal(who, key, at)})
      else c
    case Renew(_, who, key, stamp) =>
      var r := Renewal(who, key, stamp);
      if r in c.renewing then c.(entries := c.entries[key := stamp], renewing := c.renewing - {r}) else c
    case Scan(_) => c.(marked := if |c.entries| > CLEANUP_THRESHOLD then Some({}) else None)
    case Mark(_, key, now) =>
      if c.marked.Some? && key in c.entries && now - c.entries[key] > ttl
      then c.(marked := Some(c.marked.value + {key})) else c
    case Sweep(_) =>
      if c.marked.Some? then c.(entries := c.entries - c.marked.value, marked := None) else c
  }

  /** The cache after the first `n` events. */
  function After(es: seq<Event>, n: nat, ttl: int): Cache
    requires n <= |es|
  {
    if n == 0 then Cache(map[], None, {}) else Next(After(es, n - 1, ttl), es[n - 1], ttl)
  }

  /** Looking is adding, and nothing is ever deleted. */
  function NextIdeal(m: Entries, e: Event, ttl: int): Entries {
    if e.Look? && Fresh(m, e.key, e.at, ttl) then m[e.key := e.at] else m
  }

  function Ideal(es: seq<Event>, n: nat, ttl: int): Entries
    requires n <= |es|
  {
    if n == 0 then map[] else NextIdeal(Ideal(es, n - 1, ttl), es[n - 1], ttl)
  }

  /** The answer of event `i`: true when its key counts as newly added. */
  predicate Answer(es: seq<Event>, i: nat, ttl: int)
    requires i < |es|
  {
    es[i].Look? && Fresh(After(es, i, ttl).entries, es[i].key, es[i].at, ttl)
  }

  predicate IdealAnswer(es: seq<Event>, i: nat, ttl: int)
    requires i < |es|
  {
    es[i].Look? && Fresh(Ideal(es, i, ttl), es[i].key, es[i].at, ttl)
  }

  ghost predicate ClockForward(es: seq<Event>) {
    && (forall i, j | 0 <= i < j < |es| :: es[i].at <= es[j].at)
    && (forall i | 0 <= i < |es| && es[i].Mark? :: es[i].now <= es[i].at)
  }

  /** What comes later does not matter. */
  lemma {:induction false} AfterPrefix(es: seq<Event>, more: seq<Event>, n: nat, ttl: int)
    requires n <= |es|
    ensures After(es + more, n, ttl) == After(es, n, ttl)
  {
    if n > 0 {
      AfterPrefix(es, more, n - 1, ttl);
      assert (es + more)[n - 1] == es[n - 1];
    }
  }

  // ---------------------------------------------------------------------------------------------
  // Cleaning and interleaving are invisible
  // ---------------------------------------------------------------------------------------------

  /** No marked key was added again before the sweep. */
  ghost predicate NoneRenewed(c: Cache, at: int, ttl: int) {
    c.marked.Some? ==> forall k | k in c.marked.value && k in c.entries :: at - c.entries[k] > ttl
  }

  /** No renewal of the key is under way. */
  ghost predicate NotRenewing(c: Cache, key: string) {
    forall r | r in c.renewing :: r.key != key
  }

  /** A sweep deletes no renewed entry, and an add does not come between the two steps of another one. */
  ghost predicate CarefulStep(c: Cache, e: Event, ttl: int) {
    && (e.Sweep? ==> NoneRenewed(c, e.at, ttl))
    && (e.Look? ==> NotRenewing(c, e.key))
  }

  /** The first `n` events were careful. */
  ghost predicate Careful(es: seq<Event>, n: nat, ttl: int)
    requires n <= |es|
  {
    forall j | 0 <= j < n :: CarefulStep(After(es, j, ttl), es[j], ttl)
  }

  /** The cache differs from the ideal one only by expired entries and by renewals under way. */
  ghost predicate Agree(c: Cache, m: Entries, now: int, ttl: int) {
    && (forall k | k in c.entries :: k in m && (NotRenewing(c, k) ==> c.entries[k] == m[k]))
    && (forall k | k in m && k !in c.entries && NotRenewing(c, k) :: now - m[k] > ttl)
    && (forall r | r in c.renewing ::
          && r.key in m && m[r.key] == r.stamp <= now
          && (r.key in c.entries ==> r.stamp - c.entries[r.key] > ttl))
    && (forall r, x | r in c.renewing && x in c.renewing && r.key == x.key :: r == x)
  }

  /** The key is new to the cache: it is written at once. */
  lemma InsertAgrees(c: Cache, m: Entries, at: int, key: string, ttl: int)
    requires Agree(c, m, at, ttl) && NotRenewing(c, key) && key !in c.entries
    ensures Agree(c.(entries := c.entries[key := at]), m[key := at], at, ttl)
  {
    var c' := c.(entries := c.entries[key := at]);
    assert forall k :: NotRenewing(c', k) <==> NotRenewing(c, k);
  }

  /** The key has expired: it is to be renewed. */
  lemma ExpireAgrees(c: Cache, m: Entries, at: int, who: nat, key: string, ttl: int)
    requires Agree(c, m, at, ttl) && NotRenewing(c, key) && key in c.entries && at - c.entries[key] > ttl
    ensures Agree(c.(renewing := c.renewing + {Renewal(who, key, at)}), m[key := at], at, ttl)
  {
    var c', r := c.(renewing := c.renewing + {Renewal(who, key, at)}), Renewal(who, key, at);
    assert r in c'.renewing && !NotRenewing(c', key);
    assert forall k | k != key :: NotRenewing(c', k) <==> NotRenewing(c, k);
  }

  lemma LookAgrees(c: Cache, m: Entries, at: int, who: nat, key: string, ttl: int)
    requires Agree(c, m, at, ttl) && NotRenewing(c, key)
    ensures Fresh(c.entries, key, at, ttl) == Fresh(m, key, at, ttl)
    ensures Agree(Next(c, Look(at, who, key), ttl), NextIdeal(m, Look(at, who, key), ttl), at, ttl)
  {
    if key !in c.entries {
      InsertAgrees(c, m, at, key, ttl);
    } else if at - c.entries[key] > ttl {
      ExpireAgrees(c, m, at, who, key, ttl);
    }
  }

  lemma RenewAgrees(c: Cache, m: Entries, at: int, r: Renewal, ttl: int)
    requires Agree(c, m, at, ttl) && r in c.renewing
    ensures Agree(c.(entries := c.entries[r.key := r.stamp], renewing := c.renewing - {r}), m, at, ttl)
  {
    var c' := c.(entries := c.entries[r.key := r.stamp], renewing := c.renewing - {r});
    assert NotRenewing(c', r.key);
    assert forall k | k != r.key :: NotRenewing(c', k) <==> NotRenewing(c, k);
  }

  lemma SweepAgrees(c: Cache, m: Entries, at: int, ttl: int)
    requires Agree(c, m, at, ttl) && NoneRenewed(c, at, ttl)
    ensures Agree(Next(c, Sweep(at), ttl), m, at, ttl)
  {
    var c' := Next(c, Sweep(at), ttl);
    assert forall k :: NotRenewing(c', k) <==> NotRenewing(c, k);
  }

  lemma StepAgrees(c: Cache, m: Entries, e: Event, before: int, ttl: int)
    requires Agree(c, m, before, ttl) && before <= e.at && CarefulStep(c, e, ttl)
    ensures Agree(Next(c, e, ttl), NextIdeal(m, e, ttl), e.at, ttl)
  {
    assert Agree(c, m, e.at, ttl);
    match e
    case Look(at, who, key) => LookAgrees(c, m, at, who, key, ttl);
    case Renew(at, who, key, stamp) =>
      if Renewal(who, key, stamp) in c.renewing {
        RenewAgrees(c, m, at, Renewal(who, key, stamp), ttl);
      }
    case Scan(_) => assert forall k :: NotRenewing(Next(c, e, ttl), k) <==> NotRenewing(c, k);
    case Mark(_, _, _) => assert forall k :: NotRenewing(Next(c, e, ttl), k) <==> NotRenewing(c, k);
    case Sweep(at) => SweepAgrees(c, m, at, ttl);
  }

  lemma {:induction false} CachesAgree(es: seq<Event>, n: nat, now: int, ttl: int)
    requires ClockForward(es) && n <= |es| && Careful(es, n, ttl) && (n > 0 ==> es[n - 1].at <= now)
    ensures Agree(After(es, n, ttl), Ideal(es, n, ttl), now, ttl)
  {
    if n > 0 {
      var e := es[n - 1];
      CachesAgree(es, n - 1, e.at, ttl);
      StepAgrees(After(es, n - 1, ttl), Ideal(es, n - 1, ttl), e, e.at, ttl);
    }
  }

  /** Every answer is that of the ideal cache. */
  lemma CleaningInvisible(es: seq<Event>, i: nat, ttl: int)
    requires ClockForward(es) && i < |es| && Careful(es, i + 1, ttl)
    ensures Answer(es, i, ttl) == IdealAnswer(es, i, ttl)
  {
    CachesAgree(es, i, es[i].at, ttl);
    if es[i].Look? {
      assert CarefulStep(After(es, i, ttl), es[i], ttl);
      LookAgrees(After(es, i, ttl), Ideal(es, i, ttl), es[i].at, es[i].who, es[i].key, ttl);
    }
  }

  // ---------------------------------------------------------------------------------------------
  // The exact conditions
  // ---------------------------------------------------------------------------------------------

  /** From `at` on, every key not being renewed gets the ideal answer from these entries. */
  ghost predicate SameAnswers(c: Cache, entries: Entries, m: Entries, at: int, ttl: int) {
    forall key, t | t >= at && NotRenewing(c, key) :: Fresh(entries, key, t, ttl) == Fresh(m, key, t, ttl)
  }

  lemma SweptAnswer(c: Cache, m: Entries, at: int, ttl: int, key: string, t: int)
    requires Agree(c, m, at, ttl) && NoneRenewed(c, at, ttl) && NotRenewing(c, key) && t >= at
    ensures Fresh(Next(c, Sweep(at), ttl).entries, key, t, ttl) == Fresh(m, key, t, ttl)
  {
  }

  lemma SweepIff(c: Cache, m: Entries, at: int, ttl: int)
    requires Agree(c, m, at, ttl)
    ensures SameAnswers(c, Next(c, Sweep(at), ttl).entries, m, at, ttl) <==> NoneRenewed(c, at, ttl)
  {
    var swept := Next(c, Sweep(at), ttl).entries;
    if NoneRenewed(c, at, ttl) {
      forall key, t | t >= at && NotRenewing(c, key) ensures Fresh(swept, key, t, ttl) == Fresh(m, key, t, ttl) {
        SweptAnswer(c, m, at, ttl, key, t);
      }
    } else {
      var k :| k in c.marked.value && k in c.entries && !(at - c.entries[k] > ttl);
      assert NotRenewing(c, k);
      assert Fresh(swept, k, at, ttl) && !Fresh(m, k, at, ttl);
    }
  }

  /** From a sweep on, every key not being renewed gets the ideal answer if and only if no renewed entry went. */
  lemma SweepInvisibleIff(es: seq<Event>, i: nat, ttl: int)
    requires ClockForward(es) && i < |es| && es[i].Sweep? && Careful(es, i, ttl)
    ensures SameAnswers(After(es, i, ttl), After(es, i + 1, ttl).entries, Ideal(es, i + 1, ttl), es[i].at, ttl)
       <==> NoneRenewed(After(es, i, ttl), es[i].at, ttl)
  {
    CachesAgree(es, i, es[i].at, ttl);
    SweepIff(After(es, i, ttl), Ideal(es, i, ttl), es[i].at, ttl);
  }

  /** An add gets the ideal answer if and only if every renewal of its key under way is itself out of date. */
  lemma LookRightIff(es: seq<Event>, i: nat, ttl: int)
    requires ClockForward(es) && i < |es| && es[i].Look? && Careful(es, i, ttl)
    ensures Answer(es, i, ttl) == IdealAnswer(es, i, ttl)
       <==> forall r | r in After(es, i, ttl).renewing && r.key == es[i].key :: es[i].at - r.stamp > ttl
  {
    var c, m := After(es, i, ttl), Ideal(es, i, ttl);
    CachesAgree(es, i, es[i].at, ttl);
    if NotRenewing(c, es[i].key) {
      LookAgrees(c, m, es[i].at, es[i].who, es[i].key, ttl);
    }
  }

  /** Two channels look at one expired key before either renews it: both answers are true. */
  lemma ConcurrentAddsBothWin()
    ensures var es := [Look(0, 1, "a"), Look(2, 1, "a"), Look(2, 2, "a")];
      ClockForward(es) && Answer(es, 1, 1) && Answer(es, 2, 1) && !IdealAnswer(es, 2, 1)
  {
    var es := [Look(0, 1, "a"), Look(2, 1, "a"), Look(2, 2, "a")];
    assert After(es, 1, 1).entries == map["a" := 0] && After(es, 2, 1).entries == map["a" := 0];
  }

  // ---------------------------------------------------------------------------------------------
  // One step at a time is careful
  // ---------------------------------------------------------------------------------------------

  /** If event `j` has to renew an entry, the next event does. */
  ghost predicate RenewalFollows(es: seq<Event>, j: nat, ttl: int)
    requires j < |es|
  {
    FindsExpired(After(es, j, ttl), es[j], ttl) && j + 1 < |es| ==>
      es[j + 1] == Renew(es[j + 1].at, es[j].who, es[j].key, es[j].at)
  }

  /** An add that has to renew does so at once. */
  ghost predicate AddsAtOnce(es: seq<Event>, ttl: int) {
    forall j | 0 <= j < |es| :: RenewalFollows(es, j, ttl)
  }

  /** Nothing but the scan's own steps precedes a sweep. */
  ghost predicate TicksAtOnce(es: seq<Event>) {
    forall j | 0 <= j < |es| && es[j].Sweep? :: exists i :: ScanOnly(es, i, j)
  }

  /** A scan at `i` and only its marks up to `j`. */
  ghost predicate ScanOnly(es: seq<Event>, i: int, j: int) {
    0 <= i < j <= |es| && es[i].Scan? && forall l | i < l < j :: es[l].Mark?
  }

  lemma MarkHolds(c: Cache, e: Event, at: int, ttl: int)
    requires e.Scan? || (e.Mark? && e.now <= at && NoneRenewed(c, at, ttl))
    ensures NoneRenewed(Next(c, e, ttl), at, ttl)
  {
  }

  /** Marked keys stay expired as long as nothing else happens. */
  lemma {:induction false} MarksHold(es: seq<Event>, i: int, j: int, at: int, ttl: int)
    requires ScanOnly(es, i, j) && forall l | i < l < j :: es[l].now <= at
    ensures NoneRenewed(After(es, j, ttl), at, ttl)
    decreases j
  {
    if i < j - 1 {
      MarksHold(es, i, j - 1, at, ttl);
    }
    MarkHolds(After(es, j - 1, ttl), es[j - 1], at, ttl);
  }

  /** The renewal that an event calls for, if any. */
  function CalledFor(c: Cache, e: Event, ttl: int): set<Renewal> {
    if FindsExpired(c, e, ttl) then {Renewal(e.who, e.key, e.at)} else {}
  }

  lemma RenewingStep(c: Cache, e: Event, ttl: int)
    requires c.renewing == {} || (e.Renew? && c.renewing == {Renewal(e.who, e.key, e.stamp)})
    ensures Next(c, e, ttl).renewing == CalledFor(c, e, ttl)
  {
  }

  /** What the event before calls for comes next. */
  lemma CalledForIsNext(es: seq<Event>, n: nat, ttl: int)
    requires AddsAtOnce(es, ttl) && 0 < n < |es|
    ensures var called := CalledFor(After(es, n - 1, ttl), es[n - 1], ttl);
      called == {} || (es[n].Renew? && called == {Renewal(es[n].who, es[n].key, es[n].stamp)})
  {
    assert RenewalFollows(es, n - 1, ttl);
  }

  /** Nothing is being renewed except what the last event found expired. */
  lemma {:induction false} RenewedAtOnce(es: seq<Event>, n: nat, ttl: int)
    requires AddsAtOnce(es, ttl) && n < |es|
    ensures After(es, n + 1, ttl).renewing == CalledFor(After(es, n, ttl), es[n], ttl)
  {
    var c := After(es, n, ttl);
    if n > 0 {
      RenewedAtOnce(es, n - 1, ttl);
      CalledForIsNext(es, n, ttl);
    }
    RenewingStep(c, es[n], ttl);
  }

  lemma LooksAlone(es: seq<Event>, n: nat, ttl: int)
    requires AddsAtOnce(es, ttl) && n < |es| && es[n].Look?
    ensures After(es, n, ttl).renewing == {}
  {
    if n > 0 {
      RenewedAtOnce(es, n - 1, ttl);
      CalledForIsNext(es, n, ttl);
    }
  }

  lemma SweepsAlone(es: seq<Event>, n: nat, ttl: int)
    requires ClockForward(es) && TicksAtOnce(es) && n < |es| && es[n].Sweep?
    ensures NoneRenewed(After(es, n, ttl), es[n].at, ttl)
  {
    var i :| ScanOnly(es, i, n);
    MarksHold(es, i, n, es[n].at, ttl);
  }

  lemma OneAtATimeIsCareful(es: seq<Event>, ttl: int)
    requires ClockForward(es) && AddsAtOnce(es, ttl) && TicksAtOnce(es)
    ensures Careful(es, |es|, ttl)
  {
    forall j | 0 <= j < |es| ensures CarefulStep(After(es, j, ttl), es[j], ttl) {
      if es[j].Sweep? {
        SweepsAlone(es, j, ttl);
      } else if es[j].Look? {
        LooksAlone(es, j, ttl);
      }
    }
  }

  // ---------------------------------------------------------------------------------------------
  // When an answer is true
  // ---------------------------------------------------------------------------------------------

  /** Event `j` added `key` to the ideal cache. */
  ghost predicate AddedBy(es: seq<Event>, j: int, key: string, ttl: int) {
    0 <= j < |es| && es[j].Look? && es[j].key == key && IdealAnswer(es, j, ttl)
  }

  /** The entry of a key is the time of its latest success; no entry means no success. */
  ghost predicate TracksAdds(es: seq<Event>, n: nat, key: string, ttl: int)
    requires n <= |es|
  {
    var m := Ideal(es, n, ttl);
    if key in m then
      (exists j :: j < n && AddedBy(es, j, key, ttl) && es[j].at == m[key])
      && (forall j | j < n && AddedBy(es, j, key, ttl) :: es[j].at <= m[key])
    else forall j | j < n :: !AddedBy(es, j, key, ttl)
  }

  lemma {:induction false} EntryIsLastAdded(es: seq<Event>, n: nat, key: string, ttl: int)
    requires ClockForward(es) && n <= |es|
    ensures TracksAdds(es, n, key, ttl)
  {
    if n > 0 {
      EntryIsLastAdded(es, n - 1, key, ttl);
      var m0 := Ideal(es, n - 1, ttl);
      if !AddedBy(es, n - 1, key, ttl) && key in m0 {
        var j :| j < n - 1 && AddedBy(es, j, key, ttl) && es[j].at == m0[key];
        assert j < n && AddedBy(es, j, key, ttl);
      }
    }
  }

  /** An add succeeds exactly when every earlier success for its key is more than `ttl` old. */
  lemma AnswerIff(es: seq<Event>, i: nat, ttl: int)
    requires ClockForward(es) && i < |es| && Careful(es, i + 1, ttl) && es[i].Look?
    ensures Answer(es, i, ttl)
       <==> forall j | 0 <= j < i && es[j].Look? && es[j].key == es[i].key && Answer(es, j, ttl) ::
              es[i].at - es[j].at > ttl
  {
    var key, m := es[i].key, Ideal(es, i, ttl);
    CleaningInvisible(es, i, ttl);
    EntryIsLastAdded(es, i, key, ttl);
    forall j | 0 <= j < i
      ensures AddedBy(es, j, key, ttl) <==> es[j].Look? && es[j].key == key && Answer(es, j, ttl)
    {
      CleaningInvisible(es, j, ttl);
    }
    if key in m && !Fresh(m, key, es[i].at, ttl) {
      var j :| j < i && AddedBy(es, j, key, ttl) && es[j].at == m[key];
      assert 0 <= j < i;
    }
  }

  /** Hence two handled messages with one id are more than `ttl` apart, whatever channel they came on. */
  lemma OncePerWindow(es: seq<Event>, i: nat, j: nat, ttl: int)
    requires ClockForward(es) && i < j < |es| && Careful(es, j + 1, ttl)
    requires es[i].Look? && es[j].Look? && es[i].key == es[j].key
    requires Answer(es, i, ttl) && Answer(es, j, ttl)
    ensures es[j].at - es[i].at > ttl
  {
    AnswerIff(es, j, ttl);
  }

  /** The key is nowhere in the cache. */
  ghost predicate Unknown(c: Cache, key: string) {
    key !in c.entries && NotRenewing(c, key)
  }

  lemma StaysUnknown(c: Cache, e: Event, key: string, ttl: int)
    requires Unknown(c, key) && (e.Look? ==> e.key != key)
    ensures Unknown(Next(c, e, ttl), key)
  {
  }

  /** The cache only ever holds keys that were added. */
  lemma {:induction false} OnlyAddedKeys(es: seq<Event>, n: nat, key: string, ttl: int)
    requires n <= |es| && forall j | 0 <= j < n && es[j].Look? :: es[j].key != key
    ensures Unknown(After(es, n, ttl), key)
  {
    if n > 0 {
      OnlyAddedKeys(es, n - 1, key, ttl);
      StaysUnknown(After(es, n - 1, ttl), es[n - 1], key, ttl);
    }
  }

  /** And the first message with an id is never dropped, careful or not. */
  lemma FirstAlwaysHandled(es: seq<Event>, i: nat, ttl: int)
    requires i < |es| && es[i].Look?
    requires forall j | 0 <= j < i && es[j].Look? :: es[j].key != es[i].key
    ensures Answer(es, i, ttl)
  {
    OnlyAddedKeys(es, i, es[i].key, ttl);
  }

  // ---------------------------------------------------------------------------------------------
  // A renewed entry that is deleted
  // ---------------------------------------------------------------------------------------------

  /** From event `n` on: a whole add, renewal included, between the mark and the sweep of its key; then another. */
  ghost predicate AddDuringTick(es: seq<Event>, n: nat, key: string, at: int) {
    && n + 5 < |es| && es[n] == Scan(at) && es[n + 1] == Mark(at, key, at) && es[n + 2] == Look(at, 1, key)
    && es[n + 3] == Renew(at, 1, key, at) && es[n + 4] == Sweep(at) && es[n + 5] == Look(at, 2, key)
  }

  lemma RenewedThenGone(c: Cache, key: string, at: int, ttl: int)
    requires key in c.entries && at - c.entries[key] > ttl && |c.entries| > CLEANUP_THRESHOLD
    ensures var c2 := Next(Next(c, Scan(at), ttl), Mark(at, key, at), ttl);
      && Fresh(c2.entries, key, at, ttl)
      && key !in Next(Next(Next(c2, Look(at, 1, key), ttl), Renew(at, 1, key, at), ttl), Sweep(at), ttl).entries
  {
  }

  /**
   Whenever the cache is large and a key has expired, a message with the key that arrives between mark and
   sweep is handled, and so is the next one, far within the time to live.
   */
  lemma RenewalIsLost(es: seq<Event>, n: nat, key: string, at: int, ttl: int)
    requires AddDuringTick(es, n, key, at)
    requires key in After(es, n, ttl).entries && at - After(es, n, ttl).entries[key] > ttl
    requires |After(es, n, ttl).entries| > CLEANUP_THRESHOLD
    ensures Answer(es, n + 2, ttl) && Answer(es, n + 5, ttl)
  {
    RenewedThenGone(After(es, n, ttl), key, at, ttl);
    var c2 := After(es, n + 2, ttl);
    assert c2 == Next(After(es, n + 1, ttl), es[n + 1], ttl);
    var c4 := After(es, n + 4, ttl);
    assert c4 == Next(After(es, n + 3, ttl), es[n + 3], ttl);
  }

  /** A different id for each number. */
  function Name(i: nat): string {
    seq(i, _ => 'x')
  }

  /** The entries are `n` keys seen at time 0, all of them names of numbers below `n`. */
  ghost predicate Holds(m: Entries, n: nat) {
    |m| == n && (forall k | k in m :: |k| < n && m[k] == 0) && (n > 0 ==> Name(0) in m)
  }

  lemma OneMoreName(m: Entries, n: nat)
    requires Holds(m, n)
    ensures Name(n) !in m && Holds(m[Name(n) := 0], n + 1)
  {
    assert |Name(n)| == n;
  }

  lemma {:induction false} ManyAdded(es: seq<Event>, n: nat, ttl: int)
    requires n <= |es| && forall i | 0 <= i < n :: es[i] == Look(0, 0, Name(i))
    ensures Holds(After(es, n, ttl).entries, n)
  {
    if n > 0 {
      ManyAdded(es, n - 1, ttl);
      OneMoreName(After(es, n - 1, ttl).entries, n - 1);
      assert es[n - 1] == Look(0, 0, Name(n - 1));
    }
  }

  /** First `n` keys, then a tick with an add in the middle. */
  function BusyTick(n: nat, i: nat): Event {
    if i < n then Look(0, 0, Name(i))
    else if i == n then Scan(2)
    else if i == n + 1 then Mark(2, Name(0), 2)
    else if i == n + 3 then Renew(2, 1, Name(0), 2)
    else if i == n + 4 then Sweep(2)
    else Look(2, if i == n + 2 then 1 else 2, Name(0))
  }

  function BusyHistory(n: nat): (es: seq<Event>)
    ensures |es| == n + 6 && forall i | 0 <= i < n + 6 :: es[i] == BusyTick(n, i)
  {
    seq(n + 6, i requires 0 <= i < n + 6 => BusyTick(n, i))
  }

  lemma BusyClock(n: nat)
    ensures ClockForward(BusyHistory(n))
  {
    var es := BusyHistory(n);
    assert forall i | 0 <= i < n + 6 :: es[i].at == if i < n then 0 else 2;
  }

  /** Histories in which this happens, for every cache above the threshold: both answers come at the same moment. */
  lemma RenewalCanBeLost(n: nat)
    requires n > CLEANUP_THRESHOLD
    ensures var es := BusyHistory(n);
      && ClockForward(es) && es[n + 2] == Look(2, 1, Name(0)) && es[n + 5] == Look(2, 2, Name(0))
      && Answer(es, n + 2, 1) && Answer(es, n + 5, 1)
  {
    var es := BusyHistory(n);
    BusyClock(n);
    ManyAdded(es, n, 1);
    RenewalIsLost(es, n, Name(0), 2, 1);
  }

  // ---------------------------------------------------------------------------------------------
  // The objects
  // ---------------------------------------------------------------------------------------------

  /** The mutex-guarded map. */
  class SafeMap<K(==, !new), V> {
    var mm: map<K, V>

    constructor ()
      ensures mm == map[]
    {
      mm := map[];
    }

    method SetIfAbsent(key: K, value: V) returns (existing: Option<V>)
      modifies this
      ensures existing == if key in old(mm) then Some(old(mm)[key]) else None
      ensures mm == if key in old(mm) then old(mm) else old(mm)[key := value]
    {
      if key in mm {
        return Some(mm[key]);
      }
      mm := mm[key := value];
      return None;
    }

    method Set(key: K, value: V)
      modifies this
      ensures mm == old(mm)[key := value]
    {
      mm := mm[key := value];
    }

    method GetKeys() returns (r: seq<K>)
      ensures forall k :: k in r <==> k in mm
      ensures forall i, j | 0 <= i < j < |r| :: r[i] != r[j]
    {
      r := [];
      var left := mm.Keys;
      while left != {}
        invariant left <= mm.Keys
        invariant forall k :: k in r <==> k in mm && k !in left
        invariant forall i, j | 0 <= i < j < |r| :: r[i] != r[j]
        decreases left
      {
        var k :| k in left;
        left := left - {k};
        r := r + [k];
      }
    }

    method BulkDelete(keys: seq<K>)
      modifies this
      ensures mm == old(mm) - (set k | k in keys)
    {
      for i := 0 to |keys|
        invariant mm == old(mm) - (set k | k in keys[..i])
      {
        assert keys[..i + 1] == keys[..i] + [keys[i]];
        mm := mm - {keys[i]};
      }
      assert keys[..|keys|] == keys;
    }
  }

  /** The events of an add that nothing interrupts. */
  function AddEvents(m: Entries, who: nat, key: string, now: int, ttl: int): seq<Event> {
    [Look(now, who, key)] + if key in m && now - m[key] > ttl then [Renew(now, who, key, now)] else []
  }

  function MarkEvents(keys: seq<string>, now: int): seq<Event> {
    seq(|keys|, i requires 0 <= i < |keys| => Mark(now, keys[i], now))
  }

  class TtlCache {
    const entries: SafeMap<string, int>
    const ttl: int
    /** What the cleanup goroutine has found expired in the tick under way. */
    var expired: Option<seq<string>>
    /** Adds that are about to write their time. */
    ghost var renewing: set<Renewal>
    /** Every step so far. */
    ghost var history: seq<Event>

    ghost predicate Valid()
      reads this, entries
    {
      After(history, |history|, ttl)
      == Cache(entries.mm, if expired.None? then None else Some(set k | k in expired.value), renewing)
    }

    constructor (ttl: int)
      ensures Valid() && this.ttl == ttl && history == [] && fresh(entries)
    {
      this.ttl := ttl;
      entries := new SafeMap();
      expired, renewing, history := None, {}, [];
    }

    ghost method Record(e: Event)
      modifies this`history
      ensures history == old(history) + [e]
      ensures After(history, |old(history)|, ttl) == After(old(history), |old(history)|, ttl)
      ensures After(history, |history|, ttl) == Next(After(old(history), |old(history)|, ttl), e, ttl)
    {
      AfterPrefix(history, [e], |history|, ttl);
      history := history + [e];
    }

    /** The first step of an add; other channels may come before its second one. */
    method LookUp(who: nat, key: string, now: int) returns (added: bool, renew: bool)
      requires Valid()
      modifies this`renewing, this`history, entries
      ensures Valid() && history == old(history) + [Look(now, who, key)]
      ensures added == Answer(history, |old(history)|, ttl)
      ensures renew <==> key in old(entries.mm) && now - old(entries.mm)[key] > ttl
      ensures renew ==> added && Renewal(who, key, now) in renewing
    {
      Record(Look(now, who, key));
      var existing := entries.SetIfAbsent(key, now);
      if existing.None? {
        return true, false;
      }
      if now - existing.value > ttl {
        renewing := renewing + {Renewal(who, key, now)};
        return true, true;
      }
      return false, false;
    }

    /** The second step, for an add that found an expired entry at time `stamp`. */
    method RenewEntry(who: nat, key: string, stamp: int, ghost at: int)
      requires Valid() && Renewal(who, key, stamp) in renewing
      modifies this`renewing, this`history, entries
      ensures Valid() && history == old(history) + [Renew(at, who, key, stamp)]
    {
      Record(Renew(at, who, key, stamp));
      entries.Set(key, stamp);
      renewing := renewing - {Renewal(who, key, stamp)};
    }

    /** An add that nothing interrupts. */
    method AddIfAbsent(who: nat, key: string, now: int) returns (added: bool)
      requires Valid()
      modifies this`renewing, this`history, entries
      ensures Valid() && history == old(history) + AddEvents(old(entries.mm), who, key, now, ttl)
      ensures added == Answer(history, |old(history)|, ttl)
    {
      var renew;
      added, renew := LookUp(who, key, now);
      ghost var n, looked := |old(history)|, history;
      if renew {
        RenewEntry(who, key, now, now);
        AfterPrefix(looked, [Renew(now, who, key, now)], n, ttl);
      }
    }

    /** The start of a cleanup tick; below the threshold there is none. */
    method StartTick(now: int) returns (keys: seq<string>)
      requires Valid()
      modifies this`expired, this`history
      ensures Valid() && history == old(history) + [Scan(now)]
      ensures expired.Some? <==> |entries.mm| > CLEANUP_THRESHOLD
      ensures expired.Some? ==> forall k :: k in keys <==> k in entries.mm
    {
      Record(Scan(now));
      keys, expired := [], None;
      if |entries.mm| > CLEANUP_THRESHOLD {
        keys := entries.GetKeys();
        expired := Some([]);
        assert (set k | k in expired.value) == {};
      }
    }

    /** One key of the scan; `now` is the time the scan began. */
    method MarkKey(key: string, now: int, ghost at: int)
      requires Valid() && expired.Some?
      modifies this`expired, this`history
      ensures Valid() && expired.Some? && history == old(history) + [Mark(at, key, now)]
    {
      Record(Mark(at, key, now));
      if key in entries.mm && now - entries.mm[key] > ttl {
        ghost var before := set k | k in expired.value;
        expired := Some(expired.value + [key]);
        assert (set k | k in expired.value) == before + {key};
      }
    }

    /** The end of a tick. */
    method FinishTick(ghost at: int)
      requires Valid() && expired.Some?
      modifies this`expired, this`history, entries
      ensures Valid() && history == old(history) + [Sweep(at)]
    {
      Record(Sweep(at));
      if |expired.value| > 0 {
        entries.BulkDelete(expired.value);
      }
      expired := None;
    }

    /** All keys of the scan, one by one. */
    method MarkAll(keys: seq<string>, now: int)
      requires Valid() && expired.Some?
      modifies this`expired, this`history
      ensures Valid() && expired.Some? && history == old(history) + MarkEvents(keys, now)
    {
      for i := 0 to |keys|
        invariant Valid() && expired.Some? && history == old(history) + MarkEvents(keys[..i], now)
      {
        assert MarkEvents(keys[..i + 1], now) == MarkEvents(keys[..i], now) + [Mark(now, keys[i], now)];
        MarkKey(keys[i], now, now);
      }
      assert keys[..|keys|] == keys;
    }

    /** A tick that nothing interrupts. */
    method CleanupTick(now: int) returns (ghost keys: seq<string>)
      requires Valid()
      modifies this`expired, this`history, entries
      ensures Valid()
      ensures history == old(history) + [Scan(now)]
        + (if |old(entries.mm)| > CLEANUP_THRESHOLD then MarkEvents(keys, now) + [Sweep(now)] else [])
      ensures |old(entries.mm)| > CLEANUP_THRESHOLD ==> forall k :: k in keys <==> k in old(entries.mm)
    {
      var found := StartTick(now);
      keys := found;
      if expired.None? {
        return;
      }
      MarkAll(found, now);
      FinishTick(now);
    }
  }

  /** A topic behind the cache; a message without id is always passed on. */
  class DedupTopic {
    const cache: TtlCache
    /** The channel it listens on. */
    const who: nat
    var handled: seq<string>

    constructor (cache: TtlCache, who: nat)
      ensures this.cache == cache && this.who == who && handled == []
    {
      this.cache, this.who := cache, who;
      handled := [];
    }

    method MsgHandler(now: int, id: string)
      requires cache.Valid()
      modifies this, cache`renewing, cache`history, cache.entries
      ensures cache.Valid()
      ensures cache.history
           == old(cache.history) + (if id == "" then [] else AddEvents(old(cache.entries.mm), who, id, now, cache.ttl))
      ensures handled == old(handled)
        + (if id == "" || Answer(cache.history, |old(cache.history)|, cache.ttl) then [id] else [])
    {
      if id != "" {
        var added := cache.AddIfAbsent(who, id, now);
        if !added {
          return;
        }
      }
      handled := handled + [id];
    }
  }
}
