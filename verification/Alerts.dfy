/**
 The alert history table and the engine that claims a slot before sending.

 Time is counted in whole seconds, the resolution of the stored timestamps.  A key
 stands for the pair of alert type and hashed key string.
 */
module AlertHistory {

  const DAY := 86400

  datatype Key = Key(alertType: string, key: string)

  datatype Row = Row(payload: string, sentAt: int)

  type Table = map<Key, Row>

  /** What a store call answers: a flag, or a database error. */
  datatype Answer = Ok(flag: bool) | DbError

  predicate Live(t: Table, k: Key, now: int) {
    k in t && t[k].sentAt > now - DAY
  }

  predicate Stale(t: Table, k: Key, now: int) {
    k in t && t[k].sentAt <= now - DAY
  }

  function Pruned(t: Table, now: int): Table {
    map k | k in t && t[k].sentAt >= now - DAY :: t[k]
  }

  /** A plain INSERT: it fails on an existing primary key. */
  function Claimed(t: Table, k: Key, row: Row, now: int): (Table, Answer) {
    if Live(t, k, now) then (t, Ok(false))
    else if k in t then (t, DbError)
    else (t[k := row], Ok(true))
  }

  class Store {
    var rows: Table

    /** Opening the database file prunes it. */
    constructor (file: Table, now: int)
      ensures rows == Pruned(file, now)
      ensures forall k :: k in rows <==> k in file && file[k].sentAt >= now - 86400
      ensures forall k <- rows :: rows[k] == file[k]
    {
      rows := map k | k in file && !(file[k].sentAt < now - DAY) :: file[k];
    }

    method WasSent(k: Key, now: int) returns (sent: bool)
      ensures sent <==> k in rows && rows[k].sentAt > now - 86400
    {
      var matching := set r | r in rows && r == k && rows[r].sentAt > now - DAY;
      sent := |matching| > 0;
      if Live(rows, k, now) {
        assert k in matching;
      } else {
        assert matching == {};
      }
    }

    method Record(k: Key, payload: string, now: int)
      modifies this
      ensures rows == old(rows)[k := Row(payload, now)]
    {
      rows := rows[k := Row(payload, now)];
    }

    method Release(k: Key)
      modifies this
      ensures rows == old(rows) - {k}
    {
      rows := map r | r in rows && r != k :: rows[r];
    }

    /** The window is read at `queried` and the row written with the clock of `inserted`. */
    method TryClaim(k: Key, payload: string, queried: int, inserted: int) returns (a: Answer)
      modifies this
      ensures (rows, a) == Claimed(old(rows), k, Row(payload, inserted), queried)
      ensures rows == if k in old(rows) then old(rows) else old(rows)[k := Row(payload, inserted)]
      ensures a == if k !in old(rows) then Ok(true) else if old(rows)[k].sentAt > queried - 86400 then Ok(false) else DbError
    {
      var sent := WasSent(k, queried);
      if sent {
        return Ok(false);
      }
      if k in rows {
        return DbError;
      }
      rows := rows[k := Row(payload, inserted)];
      return Ok(true);
    }
  }

  datatype SendResult = Sent | Suppressed | Failed

  class Engine {
    const store: Store
    const configured: bool
    var notified: seq<string>

    constructor (store: Store, configured: bool)
      ensures this.store == store && this.configured == configured && notified == []
    {
      this.store := store;
      this.configured := configured;
      notified := [];
    }

    /**
     Claim, send, then keep or release.  `delivered` is the outcome of the message
     sender and `released` whether the store could delete the row afterwards.
     */
    method Send(k: Key, message: string, queried: int, inserted: int, delivered: bool, released: bool)
      returns (r: SendResult)
      modifies this, store
      ensures r == Sent <==> configured && k !in old(store.rows) && delivered
      ensures r == Sent ==> store.rows == old(store.rows)[k := Row(message, inserted)] && notified == old(notified) + [message]
      ensures r != Sent ==> notified == old(notified)
      ensures r == Suppressed <==> configured && k in old(store.rows) && old(store.rows)[k].sentAt > queried - 86400
      ensures r == Suppressed || !configured || k in old(store.rows) ==> store.rows == old(store.rows)
      ensures r == Failed && configured && k !in old(store.rows) ==>
        store.rows == if released then old(store.rows) else old(store.rows)[k := Row(message, inserted)]
    {
      if !configured {
        return Failed;
      }
      var claim := store.TryClaim(k, message, queried, inserted);
      if claim.DbError? {
        return Failed;
      }
      if !claim.flag {
        return Suppressed;
      }
      if !delivered {
        if released {
          store.Release(k);
        }
        return Failed;
      }
      notified := notified + [message];
      return Sent;
    }
  }

  // ---------- when a key can be claimed again ----------

  /** A claim wins exactly when the key has no row; a lost claim changes nothing. */
  lemma ClaimWinsIffAbsent(t: Table, k: Key, row: Row, now: int)
    ensures Claimed(t, k, row, now).1 == Ok(true) <==> k !in t
    ensures k in t ==> Claimed(t, k, row, now).0 == t
    ensures Claimed(t, k, row, now).1 == DbError <==> k in t && t[k].sentAt <= now - 86400
  {
  }

  /**
   The documented policy is one alert per 24 hours: a claim should win exactly when
   nothing was sent in the window.  The code meets it exactly when the key is not stale.
   */
  lemma PolicyMetIffNotStale(t: Table, k: Key, row: Row, now: int)
    ensures (Claimed(t, k, row, now).1 == Ok(true) <==> !(k in t && t[k].sentAt > now - 86400))
            <==> !(k in t && t[k].sentAt <= now - 86400)
  {
  }

  lemma StaleRowRefused()
    ensures var k := Key("matrix", "rule1");
            var t := map[k := Row("", 0)];
            !Live(t, k, 86400) && Claimed(t, k, Row("", 86400), 86400) == (t, DbError)
  {
  }

  /** A restart re-arms a key exactly when it had no row or its row is strictly older than 24 hours. */
  lemma RestartRearms(t: Table, k: Key, row: Row, prunedAt: int, now: int)
    ensures Claimed(Pruned(t, prunedAt), k, row, now).1 == Ok(true) <==> k !in t || t[k].sentAt < prunedAt - 86400
  {
  }

  /** Recording, unlike claiming, always makes the key live again. */
  lemma RecordRefreshes(t: Table, k: Key, payload: string, now: int)
    ensures Live(t[k := Row(payload, now)], k, now)
  {
  }
}

/**
 Many senders share one table.  Every store call is one atomic step (the store holds a
 mutex), so a run is an interleaving of claims, outcomes, clock ticks and restarts.
 */
module AlertProtocol {
  import opened AlertHistory

  type Sender = nat

  datatype Claim = Claim(key: Key, at: int)

  /** `inFlight` holds the senders between claim and outcome; `sent` every successful send, by its claim. */
  datatype State = State(now: int, rows: Table, inFlight: map<Sender, Claim>, sent: seq<Claim>)

  datatype Step =
    | Tick(seconds: nat)
    | TryClaim(who: Sender, key: Key, payload: string, delay: nat)
    | Deliver(who: Sender)
    | Fail(who: Sender, released: bool)
    | Restart

  /** A claim reads the window first and stamps the row `delay` seconds later. */
  function Next(s: State, step: Step): State {
    match step
    case Tick(d) => s.(now := s.now + d)
    case TryClaim(who, key, payload, delay) =>
      if who in s.inFlight then s
      else
        var at := s.now + delay;
        var (rows, answer) := Claimed(s.rows, key, Row(payload, at), s.now);
        s.(now := at, rows := rows, inFlight := if answer == Ok(true) then s.inFlight[who := Claim(key, at)] else s.inFlight)
    case Deliver(who) =>
      if who !in s.inFlight then s
      else s.(inFlight := s.inFlight - {who}, sent := s.sent + [s.inFlight[who]])
    case Fail(who, released) =>
      if who !in s.inFlight then s
      else s.(inFlight := s.inFlight - {who}, rows := if released then s.rows - {s.inFlight[who].key} else s.rows)
    case Restart => s.(rows := Pruned(s.rows, s.now), inFlight := map[])
  }

  function Run(s: State, steps: seq<Step>): State
    decreases |steps|
  {
    if steps == [] then s else Run(Next(s, steps[0]), steps[1..])
  }

  /** A process starts on any table left by earlier runs. */
  predicate Init(s: State) {
    s.inFlight == map[] && s.sent == [] && forall k <- s.rows :: s.rows[k].sentAt <= s.now
  }

  ghost predicate OwnsItsRow(s: State, c: Claim) {
    c.key in s.rows && s.rows[c.key].sentAt == c.at
  }

  /** A past send either still holds the row of its key or is more than a day behind everything that holds it now. */
  ghost predicate Settled(s: State, c: Claim) {
    || OwnsItsRow(s, c)
    || (c.at + DAY < s.now && (c.key in s.rows ==> c.at + DAY < s.rows[c.key].sentAt))
  }

  ghost predicate Spaced(sent: seq<Claim>) {
    forall i, j :: 0 <= i < j < |sent| && sent[i].key == sent[j].key ==> sent[i].at + DAY < sent[j].at
  }

  ghost predicate Inv(s: State) {
    && (forall k <- s.rows :: s.rows[k].sentAt <= s.now)
    && (forall w <- s.inFlight :: OwnsItsRow(s, s.inFlight[w]))
    && (forall w, w' :: w in s.inFlight && w' in s.inFlight && w != w' ==> s.inFlight[w].key != s.inFlight[w'].key)
    && (forall i :: 0 <= i < |s.sent| ==> Settled(s, s.sent[i]))
    && (forall i, w :: 0 <= i < |s.sent| && w in s.inFlight && s.sent[i].key == s.inFlight[w].key
          ==> s.sent[i].at + DAY < s.inFlight[w].at)
    && Spaced(s.sent)
  }

  lemma ClaimKeepsInv(s: State, who: Sender, key: Key, payload: string, delay: nat)
    requires Inv(s)
    ensures Inv(Next(s, TryClaim(who, key, payload, delay)))
  {
    var s' := Next(s, TryClaim(who, key, payload, delay));
    if who !in s.inFlight && key !in s.rows {
      assert s'.rows == s.rows[key := Row(payload, s'.now)];
      assert s'.inFlight == s.inFlight[who := Claim(key, s'.now)];
    } else {
      assert s' == s.(now := s'.now);
    }
  }

  lemma DeliverKeepsInv(s: State, who: Sender)
    requires Inv(s)
    ensures Inv(Next(s, Deliver(who)))
  {
  }

  lemma FailKeepsInv(s: State, who: Sender, released: bool)
    requires Inv(s)
    ensures Inv(Next(s, Fail(who, released)))
  {
  }

  lemma RestartKeepsInv(s: State)
    requires Inv(s)
    ensures Inv(Next(s, Restart))
  {
  }

  lemma StepKeepsInv(s: State, step: Step)
    requires Inv(s)
    ensures Inv(Next(s, step))
  {
    match step
    case Tick(_) =>
    case TryClaim(who, key, payload, delay) => ClaimKeepsInv(s, who, key, payload, delay);
    case Deliver(who) => DeliverKeepsInv(s, who);
    case Fail(who, released) => FailKeepsInv(s, who, released);
    case Restart => RestartKeepsInv(s);
  }

  lemma {:induction false} RunKeepsInv(s: State, steps: seq<Step>)
    requires Inv(s)
    ensures Inv(Run(s, steps))
    decreases |steps|
  {
    if steps != [] {
      StepKeepsInv(s, steps[0]);
      RunKeepsInv(Next(s, steps[0]), steps[1..]);
    }
  }

  /** Over every interleaving, failure and restart, two sends of one key were claimed more than 24 hours apart. */
  lemma SendsAreADayApart(s: State, steps: seq<Step>, i: nat, j: nat)
    requires Init(s)
    requires i < j < |Run(s, steps).sent|
    requires Run(s, steps).sent[i].key == Run(s, steps).sent[j].key
    ensures Run(s, steps).sent[i].at + 86400 < Run(s, steps).sent[j].at
  {
    RunKeepsInv(s, steps);
  }

  /** In every reachable state a sender in flight owns the row of its key, alone. */
  lemma InFlightOwnsRow(s: State, steps: seq<Step>, w: Sender)
    requires Init(s) && w in Run(s, steps).inFlight
    ensures var s' := Run(s, steps);
            && OwnsItsRow(s', s'.inFlight[w])
            && forall w' <- s'.inFlight :: w' != w ==> s'.inFlight[w'].key != s'.inFlight[w].key
  {
    RunKeepsInv(s, steps);
  }

  ghost predicate NobodyClaims(steps: seq<Step>, k: Key) {
    forall i :: 0 <= i < |steps| ==> (steps[i].TryClaim? ==> steps[i].key != k)
  }

  lemma {:induction false} KeyStaysFree(s: State, steps: seq<Step>, k: Key)
    requires k !in s.rows && NobodyClaims(steps, k)
    ensures k !in Run(s, steps).rows
    decreases |steps|
  {
    if steps != [] {
      assert steps[0].TryClaim? ==> steps[0].key != k;
      KeyStaysFree(Next(s, steps[0]), steps[1..], k);
    }
  }

  /**
   A failed send whose release succeeds deletes the sender's own row and no other.  However
   long everybody else goes on with other keys, the next claim on the key wins.
   */
  lemma FailedSendRearms(s: State, before: seq<Step>, w: Sender, between: seq<Step>, next: Sender, payload: string, delay: nat)
    requires Init(s) && w in Run(s, before).inFlight
    requires NobodyClaims(between, Run(s, before).inFlight[w].key)
    ensures var s1 := Run(s, before);
            var c := s1.inFlight[w];
            var s2 := Next(s1, Fail(w, true));
            var s3 := Run(s2, between);
            var s4 := Next(s3, TryClaim(next, c.key, payload, delay));
            && OwnsItsRow(s1, c) && s2.rows == s1.rows - {c.key}
            && (next !in s3.inFlight ==>
                  && next in s4.inFlight && s4.inFlight[next] == Claim(c.key, s3.now + delay)
                  && s4.rows == s3.rows[c.key := Row(payload, s3.now + delay)])
  {
    InFlightOwnsRow(s, before, w);
    var s1 := Run(s, before);
    KeyStaysFree(Next(s1, Fail(w, true)), between, s1.inFlight[w].key);
  }

  /** How many sends of a key a state has seen. */
  function SendsOf(sent: seq<Claim>, k: Key): nat {
    if sent == [] then 0 else SendsOf(sent[..|sent| - 1], k) + if sent[|sent| - 1].key == k then 1 else 0
  }

  /** Some restart comes more than a day after `at`, so its prune reaches rows of that time. */
  ghost predicate LateRestart(s: State, steps: seq<Step>, at: int)
    decreases |steps|
  {
    steps != [] && ((steps[0].Restart? && s.now > at + 86400) || LateRestart(Next(s, steps[0]), steps[1..], at))
  }

  lemma SilentStep(s: State, step: Step, k: Key)
    requires Inv(s) && k in s.rows && !(step.Restart? && s.now > s.rows[k].sentAt + DAY)
    requires forall w <- s.inFlight :: s.inFlight[w].key != k
    ensures var s' := Next(s, step);
            && k in s'.rows && s'.rows[k] == s.rows[k] && SendsOf(s'.sent, k) == SendsOf(s.sent, k)
            && forall w <- s'.inFlight :: s'.inFlight[w].key != k
  {
    if step.Deliver? && step.who in s.inFlight {
      var s' := Next(s, step);
      assert s'.sent[..|s'.sent| - 1] == s.sent;
    }
  }

  lemma {:induction false} NeverAgain(s: State, steps: seq<Step>, k: Key, at: int)
    requires s.now > at + DAY && (k in s.rows ==> s.rows[k].sentAt > at)
    ensures k in Run(s, steps).rows ==> Run(s, steps).rows[k].sentAt > at
    decreases |steps|
  {
    if steps != [] {
      NeverAgain(Next(s, steps[0]), steps[1..], k, at);
    }
  }

  /**
   Once an alert has gone out its row stays, and its key is silent, exactly until a restart
   more than a day after the claim, however many days and earlier restarts pass.
   */
  lemma {:induction false} SilentUntilRestart(s: State, steps: seq<Step>, k: Key)
    requires Inv(s) && k in s.rows && forall w <- s.inFlight :: s.inFlight[w].key != k
    ensures var s', late := Run(s, steps), LateRestart(s, steps, s.rows[k].sentAt);
            && (k in s'.rows && s'.rows[k] == s.rows[k] <==> !late)
            && (!late ==> SendsOf(s'.sent, k) == SendsOf(s.sent, k))
    decreases |steps|
  {
    if steps != [] {
      if steps[0].Restart? && s.now > s.rows[k].sentAt + DAY {
        NeverAgain(Next(s, steps[0]), steps[1..], k, s.rows[k].sentAt);
      } else {
        StepKeepsInv(s, steps[0]);
        SilentStep(s, steps[0], k);
        SilentUntilRestart(Next(s, steps[0]), steps[1..], k);
      }
    }
  }

  /** After any wait and then a restart, a claim on the key of a stored row wins exactly when the row is more than 24 hours old. */
  lemma LateRestartRearms(s: State, k: Key, wait: nat, who: Sender, payload: string, delay: nat)
    requires Inv(s) && k in s.rows
    ensures var s1 := Next(Next(s, Tick(wait)), Restart);
            var s2 := Next(s1, TryClaim(who, k, payload, delay));
            && s1.inFlight == map[]
            && (who in s2.inFlight <==> s.now + wait > s.rows[k].sentAt + 86400)
            && (who in s2.inFlight ==> s2.rows[k] == Row(payload, s.now + wait + delay))
  {
  }

  /** Between a send and the next winning claim on its key there is a restart more than a day after the claim. */
  lemma RearmNeedsLateRestart(s: State, before: seq<Step>, w: Sender, steps: seq<Step>)
    requires Init(s) && w in Run(s, before).inFlight
    ensures var s0 := Run(s, before);
            var c, s1 := s0.inFlight[w], Next(s0, Deliver(w));
            && s1.sent == s0.sent + [c]
            && (c.key !in Run(s1, steps).rows ==> LateRestart(s1, steps, c.at))
            && (SendsOf(Run(s1, steps).sent, c.key) != SendsOf(s1.sent, c.key) ==> LateRestart(s1, steps, c.at))
  {
    InFlightOwnsRow(s, before, w);
    RunKeepsInv(s, before);
    var s0 := Run(s, before);
    DeliverKeepsInv(s0, w);
    SilentUntilRestart(Next(s0, Deliver(w)), steps, s0.inFlight[w].key);
  }
}
