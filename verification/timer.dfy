/** Software timers: sorted insertion, start and stop, and the expiry scan that re-arms periodic timers as it goes. */
module Timer {
  import opened Base

  const U32: nat := 0x1_0000_0000
  const FOREVER: nat := 0xFFFF_FFFF
  const HALF: nat := 0x7FFF_FFFF    // MRTK_TICK_MAX / 2

  type Id = nat

  /** `deadline` is timeout_tick, `period` init_tick, `active` the ACTIVATED flag. */
  datatype Timer = Timer(id: Id, deadline: nat, period: nat, periodic: bool, active: bool)

  datatype Firing = Firing(id: Id, at: nat)

  // ----- the list -----

  predicate Before(t: Timer, u: Timer) {
    t.deadline <= u.deadline && t.id != u.id
  }

  /** In deadline order, no timer twice. */
  ghost predicate Ordered(l: seq<Timer>) {
    forall i, j {:trigger Before(l[i], l[j])} :: 0 <= i < j < |l| ==> Before(l[i], l[j])
  }

  predicate Listed(l: seq<Timer>, id: Id) {
    exists u :: u in l && u.id == id
  }

  /** The place before the first later deadline. */
  function Place(l: seq<Timer>, deadline: nat): (k: nat)
    ensures k <= |l|
    ensures forall i :: 0 <= i < k ==> l[i].deadline <= deadline
    ensures k < |l| ==> deadline < l[k].deadline
  {
    if l == [] || l[0].deadline > deadline then 0 else 1 + Place(l[1..], deadline)
  }

  /** _mrtk_timer_insert: the early return in the middle of the list leaves the ACTIVATED flag as it was. */
  function Insert(l: seq<Timer>, t: Timer): seq<Timer> {
    var k := Place(l, t.deadline);
    l[..k] + [if k == |l| then t.(active := true) else t] + l[k..]
  }

  /** The record that Insert puts on the list. */
  function Inserted(l: seq<Timer>, t: Timer): Timer {
    if Place(l, t.deadline) == |l| then t.(active := true) else t
  }

  lemma InsertMembers(l: seq<Timer>, t: Timer)
    ensures forall u :: u in Insert(l, t) <==> u in l || u == Inserted(l, t)
  {
    var k := Place(l, t.deadline);
    assert l == l[..k] + l[k..];
    assert Insert(l, t)[k] == Inserted(l, t);
  }

  lemma InsertOrdered(l: seq<Timer>, t: Timer)
    requires Ordered(l) && !Listed(l, t.id)
    ensures Ordered(Insert(l, t))
  {
    var k, r := Place(l, t.deadline), Insert(l, t);
    assert forall i :: 0 <= i < |l| ==> l[i] in l;
    forall i, j | 0 <= i < j < |r| ensures Before(r[i], r[j]) {
      if j == k {
        assert r[i] == l[i];
      } else if i == k {
        assert r[j] == l[j - 1];
        assert j - 1 == k || Before(l[k], l[j - 1]);
      } else {
        assert Before(l[if i < k then i else i - 1], l[if j < k then j else j - 1]);
      }
    }
  }

  // ----- start and stop -----

  function Drop(l: seq<Timer>, id: Id): seq<Timer> {
    if l == [] then [] else if l[0].id == id then l[1..] else [l[0]] + Drop(l[1..], id)
  }

  /** The list after the record of a timer has changed to v. */
  function Replace(l: seq<Timer>, v: Timer): (r: seq<Timer>)
    ensures |r| == |l| && forall i :: 0 <= i < |r| ==> r[i] == if l[i].id == v.id then v else l[i]
  {
    seq(|l|, i requires 0 <= i < |l| => if l[i].id == v.id then v else l[i])
  }

  /** _mrtk_timer_insert of a timer that may be linked already: its record changes, and its node is linked once more. */
  function Link(l: seq<Timer>, t: Timer): seq<Timer> {
    var b := Replace(l, t);
    var k := Place(b, t.deadline);
    var v := if k == |b| then t.(active := true) else t;
    Replace(b, v)[..k] + [v] + Replace(b, v)[k..]
  }

  lemma InsertOnly(t: Timer)
    ensures Insert([], t) == [t.(active := true)]
  {
  }

  lemma InsertFront(l: seq<Timer>, t: Timer)
    requires l != [] && t.deadline < l[0].deadline
    ensures Insert(l, t) == [t] + l
  {
  }

  /** The record a start arms. */
  function Armed(t: Timer, now: nat): Timer {
    t.(active := false, deadline := (now + t.period) % U32)
  }

  /** mrtk_timer_start: an ACTIVATED timer is taken out first. */
  function Start(l: seq<Timer>, t: Timer, now: nat): (seq<Timer>, Code) {
    if t.period == FOREVER then (l, EINVAL)
    else
      var rest := if t.active then Drop(l, t.id) else l;
      (Link(rest, Armed(t, now)), EOK)
  }

  lemma LinkUnlisted(l: seq<Timer>, t: Timer)
    requires !Listed(l, t.id)
    ensures Link(l, t) == Insert(l, t)
  {
    assert forall u :: u in l ==> u.id != t.id;
    assert Replace(l, t) == l && Replace(l, t.(active := true)) == l;
  }

  /** mrtk_timer_stop: only an ACTIVATED timer is taken out. */
  function Stop(l: seq<Timer>, t: Timer): (seq<Timer>, Code) {
    if t.active then (Drop(l, t.id), EOK) else (l, ERROR)
  }

  lemma TailOrdered(l: seq<Timer>)
    requires Ordered(l) && l != []
    ensures Ordered(l[1..]) && !Listed(l[1..], l[0].id)
    ensures forall u :: u in l[1..] ==> Before(l[0], u)
    ensures forall u :: u in l <==> u == l[0] || u in l[1..]
  {
    var r := l[1..];
    assert l == [l[0]] + r;
    forall i, j | 0 <= i < j < |r| ensures Before(r[i], r[j]) {
      assert Before(l[i + 1], l[j + 1]);
    }
    forall u | u in r ensures Before(l[0], u) {
      var i :| 0 <= i < |r| && r[i] == u;
      assert Before(l[0], l[i + 1]);
    }
  }

  lemma {:induction false} DropMembers(l: seq<Timer>, id: Id)
    requires Ordered(l)
    ensures forall u :: u in Drop(l, id) <==> u in l && u.id != id
  {
    if l != [] {
      TailOrdered(l);
      DropMembers(l[1..], id);
    }
  }

  lemma {:induction false} DropOrdered(l: seq<Timer>, id: Id)
    requires Ordered(l)
    ensures Ordered(Drop(l, id))
  {
    if l != [] {
      TailOrdered(l);
      DropOrdered(l[1..], id);
      DropMembers(l[1..], id);
      var r, d := Drop(l[1..], id), Drop(l, id);
      if l[0].id != id {
        forall i, j | 0 <= i < j < |d| ensures Before(d[i], d[j]) {
          if i == 0 {
            assert r[j - 1] in r;
          } else {
            assert Before(r[i - 1], r[j - 1]);
          }
        }
      }
    }
  }

  lemma InsertedThere(l: seq<Timer>, t: Timer)
    ensures Place(l, t.deadline) < |Insert(l, t)| && Insert(l, t)[Place(l, t.deadline)] == Inserted(l, t)
  {
  }

  lemma PlaceAtEnd(l: seq<Timer>, deadline: nat)
    requires Ordered(l)
    ensures Place(l, deadline) == |l| <==> forall u :: u in l ==> u.deadline <= deadline
  {
    var k := Place(l, deadline);
    if k < |l| {
      assert l[k] in l;
    }
  }

  lemma StartInserts(l: seq<Timer>, t: Timer, now: nat)
    requires !t.active && !Listed(l, t.id) && t.period != FOREVER
    ensures Start(l, t, now) == (Insert(l, Armed(t, now)), EOK)
  {
    LinkUnlisted(l, Armed(t, now));
  }

  lemma {:induction false} DropOthers(l: seq<Timer>, id: Id, u: Timer)
    requires u.id != id
    ensures u in Drop(l, id) <==> u in l
  {
    if l != [] {
      assert l == [l[0]] + l[1..];
      DropOthers(l[1..], id, u);
    }
  }

  /** r lists t, up to the ACTIVATED flag, and the other timers of l as they are there. */
  ghost predicate Records(r: seq<Timer>, l: seq<Timer>, t: Timer) {
    && Listed(r, t.id)
    && (forall u :: u in r && u.id == t.id ==> u == t.(active := u.active))
    && (forall u: Timer :: u.id != t.id ==> (u in r <==> u in l))
  }

  lemma LinkRecords(l: seq<Timer>, t: Timer)
    ensures Records(Link(l, t), l, t)
  {
    var b := Replace(l, t);
    var k := Place(b, t.deadline);
    var v := if k == |b| then t.(active := true) else t;
    var c := Replace(b, v);
    InsertedRecords(c, k, v, Link(l, t));
    forall u: Timer | u.id != t.id ensures u in c <==> u in l {
      if u in l {
        var i :| 0 <= i < |l| && l[i] == u;
        assert c[i] == u;
      }
    }
  }

  lemma InsertedRecords(c: seq<Timer>, k: nat, v: Timer, r: seq<Timer>)
    requires k <= |c| && r == c[..k] + [v] + c[k..]
    ensures v in r && forall u :: u in r <==> u == v || u in c
  {
    assert r[k] == v;
    forall u | u in c ensures u in r {
      var i :| 0 <= i < |c| && c[i] == u;
      assert r[if i < k then i else i + 1] == u;
    }
  }

  lemma RecordsAmong(r: seq<Timer>, rest: seq<Timer>, l: seq<Timer>, t: Timer)
    requires Records(r, rest, t) && forall u: Timer :: u.id != t.id ==> (u in rest <==> u in l)
    ensures Records(r, l, t)
  {
  }

  /** A start answers EINVAL exactly for an endless period, and then does nothing. Otherwise the timer is on the list,
      armed in every record of it, and the other timers are as they were. */
  lemma StartRecords(l: seq<Timer>, t: Timer, now: nat)
    ensures t.period == FOREVER ==> Start(l, t, now) == (l, EINVAL)
    ensures t.period != FOREVER ==> Start(l, t, now).1 == EOK && Records(Start(l, t, now).0, l, Armed(t, now))
  {
    if t.period != FOREVER {
      StartLinks(l, t, now, Armed(t, now), Link(if t.active then Drop(l, t.id) else l, Armed(t, now)));
    }
  }

  lemma StartLinks(l: seq<Timer>, t: Timer, now: nat, u: Timer, r: seq<Timer>)
    requires u == Armed(t, now) && t.period != FOREVER && r == Link(if t.active then Drop(l, t.id) else l, u)
    ensures Start(l, t, now).0 == r && Records(r, l, u)
  {
    RelinkRecords(l, t, u);
  }

  /** Every record of a started timer is due one period from now. */
  lemma StartedAt(l: seq<Timer>, t: Timer, now: nat, u: Timer)
    requires t.period != FOREVER && u in Start(l, t, now).0 && u.id == t.id
    ensures u.deadline == (now + t.period) % U32 && u.period == t.period && u.periodic == t.periodic
  {
    StartRecords(l, t, now);
    ArmedFields(t, now);
  }

  lemma ArmedFields(t: Timer, now: nat)
    ensures var u := Armed(t, now);
            u.deadline == (now + t.period) % U32 && u.period == t.period && u.periodic == t.periodic && u.id == t.id
  {
  }

  lemma RelinkRecords(l: seq<Timer>, t: Timer, a: Timer)
    requires a.id == t.id
    ensures Records(Link(if t.active then Drop(l, t.id) else l, a), l, a)
  {
    var rest := if t.active then Drop(l, t.id) else l;
    forall u: Timer | u.id != t.id ensures u in rest <==> u in l {
      DropOthers(l, t.id, u);
    }
    LinkRecords(rest, a);
    RecordsAmong(Link(rest, a), rest, l, a);
  }

  /** A freshly started timer carries the ACTIVATED flag exactly when no other pending deadline is later. */
  lemma StartActivates(l: seq<Timer>, t: Timer, now: nat)
    requires Ordered(l) && !t.active && !Listed(l, t.id) && t.period != FOREVER
    ensures var u := Armed(t, now);
            && Place(l, u.deadline) < |Start(l, t, now).0|
            && Start(l, t, now).0[Place(l, u.deadline)] == u.(active := forall v :: v in l ==> v.deadline <= u.deadline)
  {
    StartInserts(l, t, now);
    ArmedActive(l, Armed(t, now));
  }

  lemma ArmedActive(l: seq<Timer>, u: Timer)
    requires Ordered(l) && !u.active
    ensures Place(l, u.deadline) < |Insert(l, u)|
    ensures Insert(l, u)[Place(l, u.deadline)] == u.(active := forall v :: v in l ==> v.deadline <= u.deadline)
  {
    InsertedThere(l, u);
    PlaceAtEnd(l, u.deadline);
  }

  /** Stop right after start undoes it exactly when the timer went to the tail; otherwise it reports an error and
      the timer stays pending. */
  lemma StopUndoesStart(l: seq<Timer>, t: Timer, now: nat)
    requires Ordered(l) && !Listed(l, t.id) && !t.active && t.period != FOREVER
    ensures var (u, r) := (Armed(t, now), Start(l, t, now).0);
            && Place(l, u.deadline) < |r|
            && var started := r[Place(l, u.deadline)];
            if forall v :: v in l ==> v.deadline <= u.deadline then Stop(r, started) == (l, EOK)
            else Stop(r, started) == (r, ERROR)
  {
    StartInserts(l, t, now);
    StopInserted(l, Armed(t, now));
  }

  lemma StopInserted(l: seq<Timer>, u: Timer)
    requires Ordered(l) && !Listed(l, u.id) && !u.active
    ensures var r := Insert(l, u);
            && Place(l, u.deadline) < |r|
            && var started := r[Place(l, u.deadline)];
            if forall v :: v in l ==> v.deadline <= u.deadline then Stop(r, started) == (l, EOK)
            else Stop(r, started) == (r, ERROR)
  {
    ArmedActive(l, u);
    InsertedThere(l, u);
    DropInserted(l, Place(l, u.deadline), Inserted(l, u));
  }

  lemma {:induction false} DropInserted(l: seq<Timer>, k: nat, t: Timer)
    requires k <= |l| && !Listed(l, t.id)
    ensures Drop(l[..k] + [t] + l[k..], t.id) == l
  {
    var r := l[..k] + [t] + l[k..];
    if k > 0 {
      assert r[1..] == l[1..][..k - 1] + [t] + l[1..][k - 1..];
      assert l[0] in l && forall u :: u in l[1..] ==> u in l;
      DropInserted(l[1..], k - 1, t);
    }
  }

  /** A start keeps the list a list exactly when the timer is not pending, or pending with the ACTIVATED flag. */
  lemma StartIsSafe(l: seq<Timer>, t: Timer, now: nat)
    requires Ordered(l) && t.period != FOREVER
    ensures Ordered(Start(l, t, now).0) <==> (Listed(l, t.id) ==> t.active)
  {
    var u := Armed(t, now);
    if Listed(l, t.id) && !t.active {
      LinkedTwice(l, u);
    } else {
      var rest := if t.active then Drop(l, t.id) else l;
      DropOrdered(l, t.id);
      DropMembers(l, t.id);
      LinkUnlisted(rest, u);
      InsertOrdered(rest, u);
    }
  }

  lemma LinkedTwice(l: seq<Timer>, t: Timer)
    requires Listed(l, t.id)
    ensures !Ordered(Link(l, t))
  {
    var b := Replace(l, t);
    var k := Place(b, t.deadline);
    var v := if k == |b| then t.(active := true) else t;
    var r, w := Link(l, t), Replace(b, v);
    var u :| u in l && u.id == t.id;
    var i :| 0 <= i < |l| && l[i] == u;
    assert w[i].id == t.id;
    var j := if i < k then i else i + 1;
    assert r[j] == w[i] && r[k] == v;
    assert !Before(r[j], r[k]) && !Before(r[k], r[j]);
  }

  /** After a first start, a second one is safe exactly when no pending deadline was later at the first. */
  lemma RestartIsSafe(l: seq<Timer>, t: Timer, now: nat, later: nat)
    requires Ordered(l) && !Listed(l, t.id) && !t.active && t.period != FOREVER
    ensures var (u, r) := (Armed(t, now), Start(l, t, now).0);
            && Place(l, u.deadline) < |r| && r[Place(l, u.deadline)].id == t.id
            && (Ordered(Start(r, r[Place(l, u.deadline)], later).0) <==>
                forall v :: v in l ==> v.deadline <= u.deadline)
  {
    var u := Armed(t, now);
    var r := Start(l, t, now).0;
    StartIsSafe(l, t, now);
    StartActivates(l, t, now);
    var started := r[Place(l, u.deadline)];
    assert started in r;
    StartIsSafe(r, started, later);
  }

  lemma StartAlone(t: Timer, now: nat)
    requires !t.active && t.period != FOREVER
    ensures Start([], t, now) == ([Armed(t, now).(active := true)], EOK)
  {
    StartInserts([], t, now);
    InsertOnly(Armed(t, now));
  }

  lemma StartBefore(p: Timer, t: Timer, now: nat)
    requires !t.active && t.period != FOREVER && t.id != p.id && Armed(t, now).deadline < p.deadline
    ensures Start([p], t, now) == ([Armed(t, now), p], EOK)
  {
    assert !Listed([p], t.id);
    StartInserts([p], t, now);
    InsertFront([p], Armed(t, now));
    assert [Armed(t, now)] + [p] == [Armed(t, now), p];
  }

  /** Start A, start B to expire before A, and start B again before it expires: B is linked twice. With A(100), B(50) at
      tick 0 and the second start at tick 10 all of this is so. */
  lemma RestartLinksTwice(a: Timer, b: Timer, now: nat, later: nat)
    requires a.id != b.id && !a.active && !b.active && a.period != FOREVER && b.period != FOREVER
    requires Armed(b, now).deadline < Armed(a, now).deadline && Armed(b, later).deadline < Armed(a, now).deadline
    ensures var (p, q, z) := (Armed(a, now).(active := true), Armed(b, now), Armed(b, later));
            && Start([], a, now).0 == [p] && Start([p], b, now).0 == [q, p]
            && Start([q, p], q, later) == ([z, z, p], EOK) && !Ordered([z, z, p])
  {
    var p, q, z := Armed(a, now).(active := true), Armed(b, now), Armed(b, later);
    StartAlone(a, now);
    StartBefore(p, b, now);
    LinkAgain(p, q, z);
    ArmedAgain(b, now, later);
    assert !Before([z, z, p][0], [z, z, p][1]);
  }

  lemma ArmedAgain(b: Timer, now: nat, later: nat)
    ensures Armed(Armed(b, now), later) == Armed(b, later)
  {
  }

  lemma RestartExample()
    ensures var (a, b) := (Timer(0, 0, 100, false, false), Timer(1, 0, 50, false, false));
            Armed(a, 0).deadline == 100 && Armed(b, 0).deadline == 50 && Armed(b, 10).deadline == 60
  {
  }

  lemma LinkAgain(p: Timer, q: Timer, z: Timer)
    requires q.id == z.id != p.id && z.deadline < p.deadline
    ensures Link([q, p], z) == [z, z, p]
  {
    assert Replace([q, p], z) == [z, p];
    assert [z, p][1..] == [p] && Place([p], z.deadline) == 0 && Place([z, p], z.deadline) == 1;
    assert Replace([z, p], z) == [z, p] && [z, p][..1] + [z] + [z, p][1..] == [z, z, p];
  }

  // ----- the expiry test -----

  /** Ticks since the deadline, modulo 2^32. */
  function Late(now: nat, deadline: nat): nat {
    (now + U32 - deadline) % U32
  }

  /** cur_tick - timeout_tick < MRTK_TICK_MAX / 2 in 32-bit unsigned arithmetic. */
  predicate Due(now: nat, deadline: nat) {
    Late(now, deadline) < HALF
  }

  /** A tick count and a deadline of 32 bits; a due periodic timer makes progress without jumping over the future. */
  predicate Paced(now: nat, t: Timer) {
    now < U32 && t.deadline < U32 && (t.periodic && Due(now, t.deadline) ==> Steady(t))
  }

  predicate Steady(t: Timer) {
    0 < t.period <= U32 - HALF
  }

  ghost predicate AllPaced(now: nat, l: seq<Timer>) {
    forall t :: t in l ==> Paced(now, t)
  }

  /** One expiry works off a period of lateness, or leaves the timer pending. */
  lemma RearmLate(now: nat, deadline: nat, period: nat)
    requires now < U32 && deadline < U32 && Due(now, deadline) && 0 < period <= U32 - HALF
    ensures var d := (deadline + period) % U32;
            if period <= Late(now, deadline) then Late(now, d) == Late(now, deadline) - period else !Due(now, d)
  {
    var late, sum := Late(now, deadline), deadline + period;
    var d := sum % U32;
    assert d == sum || d == sum - U32;
    assert late == now - deadline || late == now - deadline + U32;
    LateOf(now, d);
  }

  lemma LateOf(now: nat, d: nat)
    requires now < U32 && d < U32
    ensures Late(now, d) == if d <= now then now - d else now - d + U32
  {
  }

  // ----- the scan -----

  function Rearm(t: Timer): Timer {
    t.(active := false, deadline := (t.deadline + t.period) % U32)
  }

  function Rest(l: seq<Timer>): seq<Timer>
    requires l != []
  {
    if l[0].periodic then Insert(l[1..], Rearm(l[0])) else l[1..]
  }

  /** Ticks of lateness still to be worked off. */
  function Work(now: nat, l: seq<Timer>): nat {
    if l == [] then 0 else (if Due(now, l[0].deadline) then Late(now, l[0].deadline) + 1 else 0) + Work(now, l[1..])
  }

  lemma {:induction false} WorkConcat(now: nat, a: seq<Timer>, b: seq<Timer>)
    ensures Work(now, a + b) == Work(now, a) + Work(now, b)
  {
    if a == [] {
      assert a + b == b;
    } else {
      assert (a + b)[1..] == a[1..] + b;
      WorkConcat(now, a[1..], b);
    }
  }

  lemma WorkInsert(now: nat, l: seq<Timer>, t: Timer)
    ensures Work(now, Insert(l, t)) == Work(now, l) + Work(now, [t])
  {
    var k := Place(l, t.deadline);
    var u := if k == |l| then t.(active := true) else t;
    WorkConcat(now, l[..k] + [u], l[k..]);
    WorkConcat(now, l[..k], [u]);
    WorkConcat(now, l[..k], l[k..]);
    assert l == l[..k] + l[k..];
    assert [u][1..] == [] && [t][1..] == [];
  }

  lemma RearmPaced(now: nat, h: Timer)
    requires Paced(now, h) && h.periodic && Due(now, h.deadline)
    ensures Paced(now, Rearm(h)) && Paced(now, Rearm(h).(active := true))
    ensures Work(now, [Rearm(h)]) < Late(now, h.deadline) + 1
  {
    RearmLate(now, h.deadline, h.period);
    assert [Rearm(h)][1..] == [];
  }

  /** One round of the scan keeps the list in order and in range, and gets closer to the end. */
  lemma RestKeeps(now: nat, l: seq<Timer>)
    requires l != [] && Ordered(l) && AllPaced(now, l) && Due(now, l[0].deadline)
    ensures Ordered(Rest(l)) && AllPaced(now, Rest(l)) && Work(now, Rest(l)) < Work(now, l)
  {
    var h := l[0];
    TailOrdered(l);
    assert Paced(now, h);
    if h.periodic {
      RearmPaced(now, h);
      InsertMembers(l[1..], Rearm(h));
      InsertOrdered(l[1..], Rearm(h));
      WorkInsert(now, l[1..], Rearm(h));
    }
  }

  /** The firings of mrtk_timer_hard_check and the list it leaves. */
  ghost function Scan(now: nat, l: seq<Timer>): (seq<Firing>, seq<Timer>)
    requires Ordered(l) && AllPaced(now, l)
    decreases Work(now, l)
  {
    if l == [] || !Due(now, l[0].deadline) then ([], l)
    else
      RestKeeps(now, l);
      var (log, r) := Scan(now, Rest(l));
      ([Firing(l[0].id, l[0].deadline)] + log, r)
  }

  /** What one round leaves: the other timers as they were, and the head re-armed when it is periodic. */
  lemma RestFacts(l: seq<Timer>)
    requires l != [] && Ordered(l)
    ensures forall u :: u in Rest(l) ==> Listed(l, u.id)
    ensures forall u :: u in l[1..] ==> u in Rest(l)
    ensures l[0].periodic ==> Inserted(l[1..], Rearm(l[0])) in Rest(l)
    ensures forall u :: u in Rest(l) ==> u in l[1..] || (l[0].periodic && u == Inserted(l[1..], Rearm(l[0])))
  {
    TailOrdered(l);
    assert l[0] in l;
    if l[0].periodic {
      InsertMembers(l[1..], Rearm(l[0]));
    }
  }

  /** The list left is in order and holds no stranger. */
  lemma {:induction false} NothingNew(now: nat, l: seq<Timer>)
    requires Ordered(l) && AllPaced(now, l)
    ensures var r := Scan(now, l).1;
            && Ordered(r) && AllPaced(now, r) && (forall u :: u in r ==> Listed(l, u.id))
            && (r == [] || !Due(now, r[0].deadline))
    decreases Work(now, l)
  {
    if l != [] && Due(now, l[0].deadline) {
      RestKeeps(now, l);
      RestFacts(l);
      NothingNew(now, Rest(l));
    }
  }

  /** A timer started, or started again while ACTIVATED, carries the flag exactly when no other deadline is later. */
  lemma StartFlags(l: seq<Timer>, t: Timer, now: nat, u: Timer)
    requires Ordered(l) && (Listed(l, t.id) ==> t.active) && t.period != FOREVER && u == Armed(t, now)
    ensures OnlyRecord(Start(l, t, now).0,
              u.(active := forall v :: v in l && v.id != t.id ==> v.deadline <= u.deadline))
  {
    var rest := if t.active then Drop(l, t.id) else l;
    if t.active {
      DropMembers(l, t.id);
      DropOrdered(l, t.id);
    }
    assert !Listed(rest, u.id);
    LinkUnlisted(rest, u);
    StartIsInsert(l, t, now, u, rest);
    InsertActivates(rest, u, Insert(rest, u));
    assert forall v :: v in rest <==> v in l && v.id != t.id;
  }

  lemma StartIsInsert(l: seq<Timer>, t: Timer, now: nat, u: Timer, rest: seq<Timer>)
    requires t.period != FOREVER && u == Armed(t, now) && rest == (if t.active then Drop(l, t.id) else l)
    requires Link(rest, u) == Insert(rest, u)
    ensures Start(l, t, now).0 == Insert(rest, u)
  {
  }

  /** A re-armed timer carries the ACTIVATED flag exactly when no other pending deadline is later than its own. */
  lemma RestActivates(l: seq<Timer>, u: Timer)
    requires Ordered(l) && l != [] && l[0].periodic && u == Rearm(l[0])
    ensures OnlyRecord(Rest(l), u.(active := forall v :: v in l[1..] ==> v.deadline <= u.deadline))
  {
    TailOrdered(l);
    InsertActivates(l[1..], u, Rest(l));
  }

  ghost predicate OnlyRecord(r: seq<Timer>, u: Timer) {
    u in r && forall v :: v in r && v.id == u.id ==> v == u
  }

  lemma InsertActivates(l: seq<Timer>, t: Timer, r: seq<Timer>)
    requires Ordered(l) && !Listed(l, t.id) && !t.active && r == Insert(l, t)
    ensures OnlyRecord(r, t.(active := forall v :: v in l ==> v.deadline <= t.deadline))
  {
    PlaceAtEnd(l, t.deadline);
    InsertMembers(l, t);
  }

  // ----- what each timer is owed -----

  /** The deadlines of t that have passed by now, modulo 2^32. */
  function Expected(now: nat, t: Timer): seq<nat>
    decreases if Due(now, t.deadline) then Late(now, t.deadline) + 1 else 0
  {
    if !Due(now, t.deadline) then []
    else if t.periodic && Steady(t) && now < U32 && t.deadline < U32 then
      RearmLate(now, t.deadline, t.period);
      [t.deadline] + Expected(now, t.(deadline := (t.deadline + t.period) % U32))
    else [t.deadline]
  }

  /** The timer as it stands once the passed deadlines have been served. */
  function After(now: nat, t: Timer): Option<Timer>
    decreases if Due(now, t.deadline) then Late(now, t.deadline) + 1 else 0
  {
    if !Due(now, t.deadline) then Some(t)
    else if t.periodic && Steady(t) && now < U32 && t.deadline < U32 then
      RearmLate(now, t.deadline, t.period);
      After(now, t.(deadline := (t.deadline + t.period) % U32))
    else None
  }

  function FiresOf(log: seq<Firing>, id: Id): seq<nat> {
    if log == [] then [] else (if log[0].id == id then [log[0].at] else []) + FiresOf(log[1..], id)
  }

  /** The timer one period later. */
  function Stepped(t: Timer): Timer {
    t.(deadline := (t.deadline + t.period) % U32)
  }

  lemma ExpectedUnfolds(now: nat, t: Timer)
    requires Paced(now, t) && Due(now, t.deadline) && t.periodic
    ensures Expected(now, t) == [t.deadline] + Expected(now, Stepped(t)) && After(now, t) == After(now, Stepped(t))
    ensures if t.period <= Late(now, t.deadline) then
              Paced(now, Stepped(t)) && Late(now, Stepped(t).deadline) == Late(now, t.deadline) - t.period
            else !Due(now, Stepped(t).deadline)
  {
    RearmLate(now, t.deadline, t.period);
  }

  /** A late periodic timer is owed floor(lateness / period) + 1 firings. */
  lemma {:induction false} ExpectedCount(now: nat, t: Timer)
    requires Paced(now, t) && Due(now, t.deadline) && t.periodic
    ensures |Expected(now, t)| == Late(now, t.deadline) / t.period + 1
    decreases Late(now, t.deadline)
  {
    ExpectedUnfolds(now, t);
    if t.period <= Late(now, t.deadline) {
      ExpectedCount(now, Stepped(t));
      OnePeriodLess(Late(now, t.deadline), t.period);
    } else {
      LessThanOne(Late(now, t.deadline), t.period);
    }
  }

  /** They fall on deadline, deadline + period, and so on, modulo 2^32. */
  lemma {:induction false} ExpectedSteps(now: nat, t: Timer)
    requires Paced(now, t) && Due(now, t.deadline) && t.periodic
    ensures var e := Expected(now, t); forall k :: 0 <= k < |e| ==> e[k] == (t.deadline + k * t.period) % U32
    decreases Late(now, t.deadline)
  {
    ExpectedUnfolds(now, t);
    if t.period <= Late(now, t.deadline) {
      ExpectedSteps(now, Stepped(t));
    }
    OneStepMore(t.deadline, t.period, Expected(now, t), Expected(now, Stepped(t)));
  }

  /** And then the timer stands at the next of these, first + count * period, which is pending. */
  lemma {:induction false} NoDrift(now: nat, t: Timer)
    requires Paced(now, t) && Due(now, t.deadline) && t.periodic
    ensures var d := (t.deadline + |Expected(now, t)| * t.period) % U32;
            After(now, t) == Some(t.(deadline := d)) && !Due(now, d)
    decreases Late(now, t.deadline)
  {
    ExpectedUnfolds(now, t);
    var f := Expected(now, Stepped(t));
    StepsFrom(t.deadline, t.period, |f|);
    if t.period <= Late(now, t.deadline) {
      NoDrift(now, Stepped(t));
    }
  }

  lemma OneStepMore(d: nat, p: nat, e: seq<nat>, f: seq<nat>)
    requires d < U32 && e == [d] + f && forall k :: 0 <= k < |f| ==> f[k] == ((d + p) % U32 + k * p) % U32
    ensures forall k :: 0 <= k < |e| ==> e[k] == (d + k * p) % U32
  {
    forall k | 0 <= k < |e| ensures e[k] == (d + k * p) % U32 {
      if k > 0 {
        StepsFrom(d, p, k - 1);
      }
    }
  }

  lemma LessThanOne(late: nat, p: nat)
    requires late < p
    ensures late / p == 0
  {
  }

  lemma OnePeriodLess(late: nat, p: nat)
    requires 0 < p <= late
    ensures late / p == (late - p) / p + 1
  {
    DivUnique(late, p, (late - p) / p + 1, (late - p) % p);
  }

  lemma StepsFrom(d: nat, p: nat, k: nat)
    ensures ((d + p) % U32 + k * p) % U32 == (d + (k + 1) * p) % U32
  {
    var x := k * p;
    assert (k + 1) * p == x + p;
  }

  lemma DivUnique(x: nat, p: nat, q: int, r: int)
    requires p > 0 && x == q * p + r && 0 <= r < p
    ensures x / p == q
  {
    var d := x / p - q;
    assert d * p == r - x % p;
    Multiples(d, p);
  }

  lemma Multiples(d: int, p: nat)
    ensures d >= 1 ==> d * p >= p
    ensures d <= -1 ==> d * p + p <= 0
  {
    assert d * p == (d - 1) * p + p == (d + 1) * p - p;
  }

  predicate SameButFlag(t: Timer, u: Timer) {
    t.(active := u.active) == u
  }

  /** The flag plays no part in what a timer is owed. */
  lemma {:induction false} SameExpected(now: nat, t: Timer, u: Timer)
    requires SameButFlag(t, u)
    ensures Expected(now, t) == Expected(now, u)
    ensures After(now, t).None? <==> After(now, u).None?
    ensures After(now, t).Some? ==> SameButFlag(After(now, t).value, After(now, u).value)
    decreases if Due(now, t.deadline) then Late(now, t.deadline) + 1 else 0
  {
    if Due(now, t.deadline) && t.periodic && Steady(t) && now < U32 && t.deadline < U32 {
      RearmLate(now, t.deadline, t.period);
      var d := (t.deadline + t.period) % U32;
      SameExpected(now, t.(deadline := d), u.(deadline := d));
    }
  }

  /** What a periodic timer is owed at its deadline: that firing, and what it is owed once re-armed. */
  lemma RearmedOwes(now: nat, t: Timer, u: Timer)
    requires Paced(now, t) && Due(now, t.deadline) && t.periodic && SameButFlag(Rearm(t), u)
    ensures Expected(now, t) == [t.deadline] + Expected(now, u)
    ensures After(now, t).None? <==> After(now, u).None?
    ensures After(now, t).Some? ==> SameButFlag(After(now, t).value, After(now, u).value)
  {
    SameExpected(now, t.(deadline := (t.deadline + t.period) % U32), u);
  }

  // ----- nothing owed is lost: it is fired, or still owed by what the list holds -----

  function Find(l: seq<Timer>, id: Id): Option<Timer> {
    if l == [] then None else if l[0].id == id then Some(l[0]) else Find(l[1..], id)
  }

  function OwedBy(now: nat, o: Option<Timer>): seq<nat> {
    if o.None? then [] else Expected(now, o.value)
  }

  /** What is left of t stands in the list as w. */
  predicate Settles(now: nat, t: Timer, w: Option<Timer>) {
    match w
    case None => After(now, t).None?
    case Some(u) => (After(now, t).None? <==> After(now, u).None?) &&
                    (After(now, t).Some? ==> SameButFlag(After(now, t).value, After(now, u).value))
  }

  lemma {:induction false} FindListed(l: seq<Timer>, t: Timer)
    requires Ordered(l) && t in l
    ensures Find(l, t.id) == Some(t)
  {
    TailOrdered(l);
    if l[0] != t {
      FindListed(l[1..], t);
    }
  }

  lemma {:induction false} FindMember(l: seq<Timer>, id: Id)
    ensures Find(l, id).None? <==> !Listed(l, id)
    ensures Find(l, id).Some? ==> Find(l, id).value in l && Find(l, id).value.id == id
  {
    if l != [] {
      assert l == [l[0]] + l[1..] && l[0] in l;
      FindMember(l[1..], id);
      if Listed(l[1..], id) {
        var u :| u in l[1..] && u.id == id;
        assert u in l;
      }
    }
  }

  lemma {:induction false} ScanIgnores(now: nat, l: seq<Timer>, id: Id)
    requires Ordered(l) && AllPaced(now, l) && !Listed(l, id)
    ensures FiresOf(Scan(now, l).0, id) == [] && Find(Scan(now, l).1, id).None?
    decreases Work(now, l)
  {
    if l != [] && Due(now, l[0].deadline) {
      RestKeeps(now, l);
      RestFacts(l);
      assert l[0] in l;
      ScanIgnores(now, Rest(l), id);
    } else {
      FindMember(l, id);
    }
  }

  lemma FirstFires(now: nat, l: seq<Timer>, id: Id)
    requires l != [] && Ordered(l) && AllPaced(now, l) && Due(now, l[0].deadline)
    ensures Ordered(Rest(l)) && AllPaced(now, Rest(l)) && Work(now, Rest(l)) < Work(now, l)
    ensures FiresOf(Scan(now, l).0, id) == (if l[0].id == id then [l[0].deadline] else []) + FiresOf(Scan(now,
        Rest(l)).0, id)
    ensures Scan(now, l).1 == Scan(now, Rest(l)).1
  {
    RestKeeps(now, l);
  }

  lemma StaysInRest(l: seq<Timer>, t: Timer)
    requires Ordered(l) && t in l && t != l[0]
    ensures t in Rest(l) && t.id != l[0].id && l[0].deadline <= t.deadline
  {
    TailOrdered(l);
    RestFacts(l);
  }

  /** What t is owed, paid by the log and by what is left of t in r. */
  ghost predicate Paid(now: nat, t: Timer, log: seq<Firing>, r: seq<Timer>) {
    Expected(now, t) == FiresOf(log, t.id) + OwedBy(now, Find(r, t.id)) && Settles(now, t, Find(r, t.id))
  }

  lemma OneShotPaid(now: nat, l: seq<Timer>)
    requires l != [] && Ordered(l) && AllPaced(now, l) && Due(now, l[0].deadline) && !l[0].periodic
    ensures Paid(now, l[0], Scan(now, l).0, Scan(now, l).1)
  {
    FirstFires(now, l, l[0].id);
    TailOrdered(l);
    ScanIgnores(now, Rest(l), l[0].id);
  }

  lemma OtherPaid(now: nat, t: Timer, log: seq<Firing>, tail: seq<Firing>, r: seq<Timer>)
    requires Paid(now, t, tail, r) && FiresOf(log, t.id) == [] + FiresOf(tail, t.id)
    ensures Paid(now, t, log, r)
  {
  }

  lemma PeriodicPaid(now: nat, t: Timer, u: Timer, log: seq<Firing>, tail: seq<Firing>, r: seq<Timer>)
    requires Paced(now, t) && Due(now, t.deadline) && t.periodic && SameButFlag(Rearm(t), u) && Paid(now, u, tail, r)
    requires FiresOf(log, t.id) == [t.deadline] + FiresOf(tail, t.id)
    ensures Paid(now, t, log, r)
  {
    RearmedOwes(now, t, u);
    AssocOwes([t.deadline], FiresOf(tail, t.id), OwedBy(now, Find(r, t.id)));
  }

  lemma RearmedInRest(l: seq<Timer>)
    requires Ordered(l) && l != [] && l[0].periodic
    ensures Inserted(l[1..], Rearm(l[0])) in Rest(l) && SameButFlag(Rearm(l[0]), Inserted(l[1..], Rearm(l[0])))
  {
    RestFacts(l);
  }

  /** For every list, across the wrap of the tick counter too: what a timer fires in a scan, followed by what its record
      in the list is then owed, is what it was owed before. */
  lemma {:induction false} ScanOwes(now: nat, l: seq<Timer>, t: Timer)
    requires Ordered(l) && AllPaced(now, l) && t in l
    ensures Paid(now, t, Scan(now, l).0, Scan(now, l).1)
    decreases Work(now, l)
  {
    if Due(now, l[0].deadline) {
      FirstFires(now, l, t.id);
      if t != l[0] {
        StaysInRest(l, t);
        ScanOwes(now, Rest(l), t);
        OtherPaid(now, t, Scan(now, l).0, Scan(now, Rest(l)).0, Scan(now, l).1);
      } else if t.periodic {
        var u := Inserted(l[1..], Rearm(t));
        RearmedInRest(l);
        ScanOwes(now, Rest(l), u);
        PeriodicPaid(now, t, u, Scan(now, l).0, Scan(now, Rest(l)).0, Scan(now, l).1);
      } else {
        OneShotPaid(now, l);
      }
    } else {
      NotYetPaid(now, l, t);
    }
  }

  lemma NotYetPaid(now: nat, l: seq<Timer>, t: Timer)
    requires Ordered(l) && t in l
    ensures Paid(now, t, [], l)
  {
    FindListed(l, t);
    SameExpected(now, t, t);
    assert [] + Expected(now, t) == Expected(now, t);
  }

  lemma AssocOwes(a: seq<nat>, b: seq<nat>, c: seq<nat>)
    ensures a + (b + c) == (a + b) + c
  {
  }

  // ----- which timers are served in full -----

  /** The highest of the deadlines that t is owed, -1 when there is none. */
  function Top(now: nat, t: Timer): int
    decreases if Due(now, t.deadline) then Late(now, t.deadline) + 1 else 0
  {
    if !Due(now, t.deadline) then -1
    else if t.periodic && Steady(t) && now < U32 && t.deadline < U32 then
      RearmLate(now, t.deadline, t.period);
      var later := Top(now, t.(deadline := (t.deadline + t.period) % U32));
      if later > t.deadline then later else t.deadline
    else t.deadline
  }

  /** The deadline at which t will be pending, 2^32 when it will be gone. */
  function Next(now: nat, t: Timer): nat {
    match After(now, t)
    case None => U32
    case Some(u) => u.deadline
  }

  /** Once t is pending it stands before a deadline of u, and it is pending before that deadline is served. */
  predicate Blocks(now: nat, t: Timer, u: Timer) {
    t.id != u.id && Next(now, t) < Top(now, u) && Top(now, t) < Top(now, u)
  }

  /** As Blocks, but for the last deadlines of both being the same tick. */
  predicate MayBlock(now: nat, t: Timer, u: Timer) {
    t.id != u.id && Next(now, t) < Top(now, u) && Top(now, t) <= Top(now, u)
  }

  lemma {:induction false} SameTop(now: nat, t: Timer, u: Timer)
    requires SameButFlag(t, u)
    ensures Top(now, t) == Top(now, u) && Next(now, t) == Next(now, u)
    decreases if Due(now, t.deadline) then Late(now, t.deadline) + 1 else 0
  {
    if Due(now, t.deadline) && t.periodic && Steady(t) && now < U32 && t.deadline < U32 {
      RearmLate(now, t.deadline, t.period);
      var d := (t.deadline + t.period) % U32;
      SameTop(now, t.(deadline := d), u.(deadline := d));
    }
  }

  /** Re-arming moves neither where t will be pending nor, short of its own top, its top. */
  lemma RearmedTop(now: nat, t: Timer, u: Timer)
    requires Paced(now, t) && Due(now, t.deadline) && t.periodic && SameButFlag(Rearm(t), u)
    ensures u.id == t.id && Next(now, u) == Next(now, t)
    ensures Top(now, t) == (if Top(now, u) > t.deadline then Top(now, u) else t.deadline)
  {
    SameTop(now, t.(deadline := (t.deadline + t.period) % U32), u);
  }

  lemma DueTop(now: nat, t: Timer)
    ensures Due(now, t.deadline) ==> t.deadline <= Top(now, t)
    ensures !Due(now, t.deadline) ==> Top(now, t) == -1 && Next(now, t) == t.deadline
  {
  }

  /** Nobody in l may block u. */
  ghost predicate Free(now: nat, l: seq<Timer>, u: Timer) {
    forall t {:trigger MayBlock(now, t, u)} :: t in l ==> !MayBlock(now, t, u)
  }

  ghost predicate Stuck(now: nat, l: seq<Timer>, u: Timer) {
    exists t :: t in l && Blocks(now, t, u)
  }

  lemma {:induction false} TopInRange(now: nat, t: Timer)
    requires Paced(now, t)
    ensures Top(now, t) < U32
    ensures Due(now, t.deadline) && !t.periodic ==> Next(now, t) == U32 && Top(now, t) == t.deadline
    decreases if Due(now, t.deadline) then Late(now, t.deadline) + 1 else 0
  {
    if Due(now, t.deadline) && t.periodic {
      RearmLate(now, t.deadline, t.period);
      TopInRange(now, t.(deadline := (t.deadline + t.period) % U32));
    }
  }

  /** The record of u after a round. */
  function Follow(l: seq<Timer>, u: Timer): Timer
    requires l != []
  {
    if u == l[0] then Inserted(l[1..], Rearm(u)) else u
  }

  lemma FollowFacts(l: seq<Timer>, u: Timer)
    requires l != [] && Ordered(l) && u in l && (u == l[0] ==> u.periodic)
    ensures Follow(l, u) in Rest(l) && Follow(l, u).id == u.id && l[0].deadline <= u.deadline
  {
    TailOrdered(l);
    RestFacts(l);
  }

  /** Who stands in the list after a round stood in it before, under the same number. */
  lemma CameFrom(l: seq<Timer>, v: Timer) returns (t: Timer)
    requires l != [] && Ordered(l) && v in Rest(l)
    ensures t in l && v == Follow(l, t) && (t == l[0] ==> t.periodic)
  {
    TailOrdered(l);
    RestFacts(l);
    if v in l[1..] {
      t := v;
    } else {
      t := l[0];
    }
  }

  lemma FollowTop(now: nat, l: seq<Timer>, t: Timer)
    requires l != [] && AllPaced(now, l) && t in l && Due(now, l[0].deadline) && (t == l[0] ==> t.periodic)
    ensures Next(now, Follow(l, t)) == Next(now, t) && Top(now, Follow(l, t)) <= Top(now, t)
    ensures Top(now, Follow(l, t)) == Top(now, t) || (t == l[0] && Top(now, t) == t.deadline)
  {
    if t == l[0] {
      assert Paced(now, t);
      RearmedTop(now, t, Follow(l, t));
    }
  }

  lemma FreeStays(now: nat, l: seq<Timer>, u: Timer)
    requires l != [] && Ordered(l) && AllPaced(now, l) && Due(now, l[0].deadline)
    requires u in l && (u == l[0] ==> u.periodic) && Free(now, l, u)
    ensures Free(now, Rest(l), Follow(l, u))
  {
    FollowFacts(l, u);
    FollowTop(now, l, u);
    forall v | v in Rest(l) ensures !MayBlock(now, v, Follow(l, u)) {
      var t := CameFrom(l, v);
      FollowFacts(l, t);
      FollowTop(now, l, t);
      assert !MayBlock(now, t, u);
      DueTop(now, u);
    }
  }

  lemma FreeAtTheEnd(now: nat, r: seq<Timer>, u: Timer)
    requires r != [] && Ordered(r) && !Due(now, r[0].deadline) && u in r && Free(now, r, u)
    ensures !Due(now, u.deadline)
  {
    TailOrdered(r);
    assert !MayBlock(now, r[0], u);
    DueTop(now, u);
    DueTop(now, r[0]);
  }

  lemma {:induction false} FreeServed(now: nat, l: seq<Timer>, u: Timer)
    requires Ordered(l) && AllPaced(now, l) && u in l && Free(now, l, u)
    ensures OwedBy(now, Find(Scan(now, l).1, u.id)) == []
    decreases Work(now, l)
  {
    if Due(now, l[0].deadline) {
      RestKeeps(now, l);
      if u == l[0] && !u.periodic {
        TailOrdered(l);
        ScanIgnores(now, Rest(l), u.id);
      } else {
        FollowFacts(l, u);
        FreeStays(now, l, u);
        FreeServed(now, Rest(l), Follow(l, u));
      }
    } else {
      FreeAtTheEnd(now, l, u);
      FindListed(l, u);
    }
  }

  lemma StuckStays(now: nat, l: seq<Timer>, u: Timer, t: Timer)
    requires l != [] && Ordered(l) && AllPaced(now, l) && Due(now, l[0].deadline)
    requires u in l && t in l && Blocks(now, t, u)
    ensures (u == l[0] ==> u.periodic) && (t == l[0] ==> t.periodic)
    ensures Follow(l, u) in Rest(l) && Follow(l, u).id == u.id && Follow(l, t) in Rest(l)
    ensures Blocks(now, Follow(l, t), Follow(l, u))
  {
    assert Paced(now, u) && Paced(now, t);
    TopInRange(now, u);
    TopInRange(now, t);
    DueTop(now, u);
    DueTop(now, t);
    TailOrdered(l);
    FollowFacts(l, u);
    FollowFacts(l, t);
    FollowTop(now, l, u);
    FollowTop(now, l, t);
  }

  lemma {:induction false} StuckIsLeft(now: nat, l: seq<Timer>, u: Timer)
    requires Ordered(l) && AllPaced(now, l) && u in l && Stuck(now, l, u)
    ensures var w := Find(Scan(now, l).1, u.id); w.Some? && Due(now, w.value.deadline)
    decreases Work(now, l)
  {
    var t :| t in l && Blocks(now, t, u);
    if Due(now, l[0].deadline) {
      RestKeeps(now, l);
      StuckStays(now, l, u, t);
      assert Stuck(now, Rest(l), Follow(l, u));
      StuckIsLeft(now, Rest(l), Follow(l, u));
    } else {
      DueTop(now, u);
      FindListed(l, u);
    }
  }

  /** No other timer has its last due deadline at the same tick as u. */
  ghost predicate NoTie(now: nat, l: seq<Timer>, u: Timer) {
    forall t :: t in l && t.id != u.id ==> Top(now, t) != Top(now, u)
  }

  /** Whatever side of the wrap now and the deadlines are on: a timer that nobody may block fires at each of its passed
      deadlines, once, and at no other time; one that is blocked is left due; and where no last deadlines coincide a
      timer is served in full exactly when nobody blocks it. */
  lemma ServedExactly(now: nat, l: seq<Timer>, u: Timer)
    requires Ordered(l) && AllPaced(now, l) && u in l
    ensures var (log, r) := Scan(now, l);
            && (Free(now, l, u) ==> FiresOf(log, u.id) == Expected(now, u))
            && (Stuck(now, l, u) ==> |FiresOf(log, u.id)| < |Expected(now, u)|)
            && (Due(now, u.deadline) && NoTie(now, l, u) ==>
                (FiresOf(log, u.id) == Expected(now, u) <==> !Stuck(now, l, u)))
  {
    var (log, r) := Scan(now, l);
    ScanOwes(now, l, u);
    if Stuck(now, l, u) {
      StuckIsLeft(now, l, u);
    }
    if Free(now, l, u) {
      FreeServed(now, l, u);
      assert FiresOf(log, u.id) + [] == FiresOf(log, u.id);
    } else if NoTie(now, l, u) {
      var t :| t in l && MayBlock(now, t, u);
      assert Blocks(now, t, u);
    }
  }

  /** A list of timers nobody may block is left without a due one; a blocked timer is left due. */
  lemma LeavesNoneDue(now: nat, l: seq<Timer>)
    requires Ordered(l) && AllPaced(now, l)
    ensures var r := Scan(now, l).1;
            && ((forall u :: u in l ==> Free(now, l, u)) ==> forall w :: w in r ==> !Due(now, w.deadline))
            && ((exists u :: u in l && Stuck(now, l, u)) ==> exists w :: w in r && Due(now, w.deadline))
  {
    var r := Scan(now, l).1;
    NothingNew(now, l);
    if forall u :: u in l ==> Free(now, l, u) {
      forall w | w in r ensures !Due(now, w.deadline) {
        var u :| u in l && u.id == w.id;
        FreeServed(now, l, u);
        FindListed(r, w);
      }
    }
    if u :| u in l && Stuck(now, l, u) {
      StuckIsLeft(now, l, u);
      FindMember(r, u.id);
    }
  }

  /** Of a due and a pending timer, the due one has the lower deadline. */
  predicate Below(now: nat, u: Timer, t: Timer) {
    Due(now, u.deadline) && !Due(now, t.deadline) ==> u.deadline < t.deadline
  }

  /** The wrap does not come between now and the deadlines. */
  ghost predicate Together(now: nat, l: seq<Timer>) {
    forall t, u {:trigger Below(now, u, t)} :: t in l && u in l ==> Below(now, u, t)
  }

  ghost predicate OneShots(now: nat, l: seq<Timer>) {
    forall t :: t in l && Due(now, t.deadline) ==> !t.periodic
  }

  ghost predicate NoneDue(now: nat, l: seq<Timer>) {
    forall t :: t in l ==> !Due(now, t.deadline)
  }

  /** Among one-shots the condition is on the bare numbers: no due deadline lies above a pending one. */
  lemma OneShotsExactly(now: nat, l: seq<Timer>)
    requires Ordered(l) && AllPaced(now, l) && OneShots(now, l)
    ensures NoneDue(now, Scan(now, l).1) <==> Together(now, l)
  {
    if Together(now, l) {
      forall u | u in l ensures Free(now, l, u) {
        TogetherIsFree(now, l, u);
      }
      LeavesNoneDue(now, l);
    } else {
      var t, u :| t in l && u in l && !Below(now, u, t);
      ApartIsLeft(now, l, t, u);
    }
  }

  lemma TogetherIsFree(now: nat, l: seq<Timer>, u: Timer)
    requires AllPaced(now, l) && OneShots(now, l) && Together(now, l) && u in l
    ensures Free(now, l, u)
  {
    forall t | t in l ensures !MayBlock(now, t, u) {
      assert Below(now, u, t);
      OneShotBlocks(now, t, u);
    }
  }

  lemma ApartIsLeft(now: nat, l: seq<Timer>, t: Timer, u: Timer)
    requires Ordered(l) && AllPaced(now, l) && OneShots(now, l) && t in l && u in l && !Below(now, u, t)
    ensures !NoneDue(now, Scan(now, l).1)
  {
    FindListed(l, t);
    FindListed(l, u);
    assert t.deadline != u.deadline;
    OneShotBlocks(now, t, u);
    assert Stuck(now, l, u);
    StuckIsLeft(now, l, u);
    FindMember(Scan(now, l).1, u.id);
  }

  lemma OneShotBlocks(now: nat, t: Timer, u: Timer)
    requires Paced(now, t) && Paced(now, u)
    requires (Due(now, t.deadline) ==> !t.periodic) && (Due(now, u.deadline) ==> !u.periodic)
    ensures MayBlock(now, t, u) ==> Due(now, u.deadline) && !Due(now, t.deadline) && t.deadline < u.deadline
    ensures t.id != u.id && Due(now, u.deadline) && !Due(now, t.deadline) && t.deadline < u.deadline
            ==> Blocks(now, t, u)
  {
    TopInRange(now, t);
    TopInRange(now, u);
    DueTop(now, t);
    DueTop(now, u);
  }

  // ----- from the start to the first firing -----

  lemma Elapsed(now: nat, p: nat, d: nat, at: nat, first: nat)
    requires now < U32 && p <= U32 - HALF && d < p + HALF && d < U32
    requires at == (now + d) % U32 && first == (now + p) % U32
    ensures Late(at, first) == if d >= p then d - p else d - p + U32
  {
    assert at == now + d || at == now + d - U32;
    assert first == now + p || first == now + p - U32;
    LateOf(at, first);
  }

  /** Nothing is owed d ticks after the start, or the first firing is. */
  predicate FirstOwed(at: nat, u: Timer, p: nat, d: nat, first: nat) {
    && (Due(at, u.deadline) <==> d >= p)
    && if d < p then Expected(at, u) == [] else Expected(at, u) != [] && Expected(at, u)[0] == first
  }

  lemma OwedSince(now: nat, p: nat, d: nat, at: nat, first: nat, u: Timer)
    requires now < U32 && p <= U32 - HALF && d < p + HALF && d < U32 && u.deadline == first
    requires at == (now + d) % U32 && first == (now + p) % U32
    ensures FirstOwed(at, u, p, d, first)
  {
    Elapsed(now, p, d, at, first);
  }

  /** A timer armed at now is due one period later and not before, on whatever side of the wrap that is, and is owed its
      first firing there. */
  lemma ArmedIsDue(t: Timer, now: nat, d: nat, u: Timer, at: nat, first: nat)
    requires now < U32 && t.period <= U32 - HALF && d < t.period + HALF && d < U32
    requires at == (now + d) % U32 && first == (now + t.period) % U32
    requires u == Armed(t, now).(active := u.active)
    ensures FirstOwed(at, u, t.period, d, first)
  {
    ArmedFields(t, now);
    OwedSince(now, t.period, d, at, first, u);
  }

  /** So it is seen in a scan: no firing, or a first one at the given tick. */
  ghost predicate FiresFrom(at: nat, r: seq<Timer>, id: Id, p: nat, d: nat, first: nat)
    requires Ordered(r) && AllPaced(at, r)
  {
    var fires := FiresOf(Scan(at, r).0, id);
    if d < p then fires == [] else fires != [] && fires[0] == first
  }

  /** A list that records the start of t at now, as StartRecords says, scanned at now + d on one side of the wrap:
      nothing fires for t before a period has passed, and then its first firing is at now + period. */
  lemma StartedFires(l: seq<Timer>, t: Timer, now: nat, d: nat, at: nat, r: seq<Timer>, first: nat)
    requires t.period <= U32 - HALF && d < t.period + HALF && at == now + d < U32 && first == (now + t.period) % U32
    requires Records(r, l, Armed(t, now)) && Ordered(r) && AllNear(at, r) && AllPaced(at, r)
    ensures FiresFrom(at, r, t.id, t.period, d, first)
  {
    ArmedFields(t, now);
    var u: Timer :| u in r && u.id == t.id;
    FiresSince(now, t.period, d, at, first, r, u);
  }

  lemma FiresSince(now: nat, p: nat, d: nat, at: nat, first: nat, r: seq<Timer>, u: Timer)
    requires p <= U32 - HALF && d < p + HALF && at == now + d < U32
    requires first == (now + p) % U32 && u.deadline == first
    requires Ordered(r) && AllNear(at, r) && AllPaced(at, r) && u in r
    ensures FiresFrom(at, r, u.id, p, d, first)
  {
    OwedSince(now, p, d, at, first, u);
    FiresAsOwed(at, r, u, Expected(at, u));
  }

  lemma FiresAsOwed(at: nat, r: seq<Timer>, u: Timer, e: seq<nat>)
    requires Ordered(r) && AllNear(at, r) && AllPaced(at, r) && u in r && e == Expected(at, u)
    ensures FiresOf(Scan(at, r).0, u.id) == e
  {
    ScanFires(at, r, u);
  }

  // ----- on one side of the wrap -----

  /** Close enough to now on either side, and re-armed without passing 2^32. */
  predicate Near(now: nat, t: Timer) {
    && now < U32 && t.deadline < U32
    && (t.deadline <= now ==> now - t.deadline < HALF)
    && (t.deadline > now ==> t.deadline - now <= U32 - HALF)
    && (t.periodic ==> t.period <= U32 - HALF && now + t.period < U32)
  }

  ghost predicate AllNear(now: nat, l: seq<Timer>) {
    forall t :: t in l ==> Near(now, t)
  }

  lemma NearDue(now: nat, t: Timer)
    requires Near(now, t)
    ensures Due(now, t.deadline) <==> t.deadline <= now
  {
    LateOf(now, t.deadline);
  }

  /** Without a wrap: the deadlines owed are at most now, and the one left is later, by at most a period. */
  lemma {:induction false} NearTop(now: nat, t: Timer)
    requires Near(now, t) && Paced(now, t)
    ensures Top(now, t) <= now < Next(now, t)
    ensures After(now, t).Some? ==>
              var w := After(now, t).value;
              && w == t.(deadline := w.deadline) && w.deadline > now
              && (w == t || (t.deadline <= now && w.deadline <= now + t.period))
    decreases if Due(now, t.deadline) then Late(now, t.deadline) + 1 else 0
  {
    NearDue(now, t);
    if Due(now, t.deadline) && t.periodic {
      RearmLate(now, t.deadline, t.period);
      assert (t.deadline + t.period) % U32 == t.deadline + t.period;
      NearTop(now, t.(deadline := t.deadline + t.period));
    }
  }

  /** Within a half range of now nobody blocks anybody: every timer is served in full. */
  lemma NearIsFree(now: nat, l: seq<Timer>, u: Timer)
    requires AllNear(now, l) && AllPaced(now, l) && u in l
    ensures Free(now, l, u)
  {
    NearTop(now, u);
    forall t | t in l ensures !MayBlock(now, t, u) {
      NearTop(now, t);
    }
  }

  /** Then every timer fires at each of its passed deadlines, once, and at no other time, and nothing due is left. */
  lemma ScanFires(now: nat, l: seq<Timer>, t: Timer)
    requires Ordered(l) && AllNear(now, l) && AllPaced(now, l) && t in l
    ensures FiresOf(Scan(now, l).0, t.id) == Expected(now, t)
    ensures Leaves(now, t, Scan(now, l).1)
  {
    NearIsFree(now, l, t);
    ServedExactly(now, l, t);
    ScanOwes(now, l, t);
    FreeServed(now, l, t);
    FindMember(Scan(now, l).1, t.id);
  }

  /** r holds t at its next deadline when something is left of t, and no trace of it otherwise. */
  ghost predicate Leaves(now: nat, t: Timer, r: seq<Timer>) {
    match After(now, t)
    case None => !Listed(r, t.id)
    case Some(u) => exists w :: w in r && SameButFlag(w, u)
  }

  lemma NearRest(now: nat, l: seq<Timer>)
    requires l != [] && Ordered(l) && AllNear(now, l) && Due(now, l[0].deadline)
    ensures Ordered(Rest(l)) && AllNear(now, Rest(l)) && l[0].deadline <= now
    ensures forall u :: u in Rest(l) ==> l[0].deadline <= u.deadline && Listed(l, u.id)
  {
    var h := l[0];
    TailOrdered(l);
    RestFacts(l);
    assert Near(now, h);
    NearDue(now, h);
    if h.periodic {
      InsertOrdered(l[1..], Rearm(h));
      RearmNear(now, h);
    }
  }

  lemma RearmNear(now: nat, h: Timer)
    requires Near(now, h) && h.periodic && h.deadline <= now
    ensures Rearm(h).deadline == h.deadline + h.period
    ensures Near(now, Rearm(h)) && Near(now, Rearm(h).(active := true))
  {
  }

  /** Only listed timers fire, never before the first deadline of the list, in deadline order. */
  lemma {:induction false} LogOrdered(now: nat, l: seq<Timer>)
    requires Ordered(l) && AllNear(now, l) && AllPaced(now, l)
    ensures var log := Scan(now, l).0;
            && (forall f :: f in log ==> l != [] && Listed(l, f.id) && l[0].deadline <= f.at <= now)
            && (forall i, j :: 0 <= i < j < |log| ==> log[i].at <= log[j].at)
    decreases Work(now, l)
  {
    if l != [] && Due(now, l[0].deadline) {
      RestKeeps(now, l);
      NearRest(now, l);
      LogOrdered(now, Rest(l));
      assert l[0] in l;
      var tail := Scan(now, Rest(l)).0;
      assert Scan(now, l).0 == [Firing(l[0].id, l[0].deadline)] + tail;
      forall f | f in tail ensures Listed(l, f.id) && l[0].deadline <= f.at {
        var u :| u in Rest(l) && u.id == f.id;
        assert Rest(l)[0] in Rest(l);
      }
    }
  }

  // ----- two scans in a row -----

  /** What is owed by a later time is what is owed by now and what the timer left is then owed. */
  lemma {:induction false} OwedInTwo(now: nat, later: nat, t: Timer)
    requires now <= later && Near(now, t) && Near(later, t) && Paced(now, t) && Paced(later, t)
    ensures Expected(later, t) == Expected(now, t) + OwedBy(later, After(now, t))
    decreases if Due(now, t.deadline) then Late(now, t.deadline) + 1 else 0
  {
    NearDue(now, t);
    NearDue(later, t);
    if Due(now, t.deadline) {
      if t.periodic {
        ExpectedUnfolds(now, t);
        ExpectedUnfolds(later, t);
        SteppedNear(now, t);
        SteppedNear(later, t);
        OwedInTwo(now, later, Stepped(t));
        AssocOwes([t.deadline], Expected(now, Stepped(t)), OwedBy(later, After(now, t)));
      }
    } else {
      assert [] + Expected(later, t) == Expected(later, t);
    }
  }

  lemma SteppedNear(now: nat, t: Timer)
    requires Near(now, t) && Paced(now, t) && t.periodic && t.deadline <= now
    ensures Near(now, Stepped(t)) && Paced(now, Stepped(t)) && Stepped(t).deadline == t.deadline + t.period
  {
    NearDue(now, t);
    LateOf(now, t.deadline);
    LateOf(now, t.deadline + t.period);
  }

  /** What a scan leaves is in range for a later one. */
  lemma LeftIsNear(now: nat, later: nat, l: seq<Timer>)
    requires now <= later && Ordered(l) && AllNear(now, l) && AllPaced(now, l) && AllNear(later, l)
    requires AllPaced(later, l)
    ensures var r := Scan(now, l).1; Ordered(r) && AllNear(later, r) && AllPaced(later, r)
  {
    var r := Scan(now, l).1;
    NothingNew(now, l);
    forall w | w in r ensures Near(later, w) && Paced(later, w) {
      var t :| t in l && t.id == w.id;
      LeftRecord(now, l, t, w);
      NearTop(now, t);
      NearDue(now, t);
      NearDue(later, t);
      LateOf(later, w.deadline);
    }
  }

  lemma LeftRecord(now: nat, l: seq<Timer>, t: Timer, w: Timer)
    requires Ordered(l) && AllNear(now, l) && AllPaced(now, l) && t in l && w in Scan(now, l).1 && w.id == t.id
    ensures After(now, t).Some? && SameButFlag(After(now, t).value, w) && Find(Scan(now, l).1, t.id) == Some(w)
  {
    NothingNew(now, l);
    FindListed(Scan(now, l).1, w);
    ScanOwes(now, l, t);
    NearIsFree(now, l, t);
    FreeServed(now, l, t);
  }

  /** No drift: scanning now and again later fires what one late scan fires, timer by timer. */
  lemma TwoScans(now: nat, later: nat, l: seq<Timer>, t: Timer)
    requires now <= later && Ordered(l) && AllNear(now, l) && AllPaced(now, l) && AllNear(later, l)
    requires AllPaced(later, l) && t in l
    ensures var (log, r) := Scan(now, l);
            && Ordered(r) && AllPaced(later, r)
            && FiresOf(log, t.id) + FiresOf(Scan(later, r).0, t.id) == FiresOf(Scan(later, l).0, t.id)
  {
    var r := Scan(now, l).1;
    LeftIsNear(now, later, l);
    ScanFires(now, l, t);
    ScanFires(later, l, t);
    OwedInTwo(now, later, t);
    if After(now, t).None? {
      ScanIgnores(later, r, t.id);
    } else {
      var w :| w in r && SameButFlag(w, After(now, t).value);
      NearTop(now, t);
      ScanFires(later, r, w);
      SameExpected(later, w, After(now, t).value);
    }
  }

  // ----- the scan ends exactly when no due periodic timer has period zero -----

  /** The list after n rounds, or as it stands where the scan has ended. */
  function Rounds(now: nat, l: seq<Timer>, n: nat): seq<Timer>
    decreases n
  {
    if n == 0 || Ended(now, l) then l else Rounds(now, Rest(l), n - 1)
  }

  predicate Ended(now: nat, l: seq<Timer>) {
    l == [] || !Due(now, l[0].deadline)
  }

  /** The scan has ended after n rounds. */
  predicate EndsBy(now: nat, l: seq<Timer>, n: nat) {
    Ended(now, Rounds(now, l, n))
  }

  /** Expiring it changes nothing. */
  predicate Frozen(now: nat, t: Timer) {
    t.periodic && t.period == 0 && Due(now, t.deadline)
  }

  lemma FrozenStays(l: seq<Timer>, now: nat, t: Timer) returns (u: Timer)
    requires l != [] && Ordered(l) && t in l && Frozen(now, t) && t.deadline < U32
    ensures u in Rest(l) && Frozen(now, u)
  {
    u := Follow(l, t);
    FollowFacts(l, t);
  }

  lemma FrozenIsFirst(now: nat, l: seq<Timer>, t: Timer)
    requires Ordered(l) && AllNear(now, l) && t in l && Frozen(now, t)
    ensures !Ended(now, l)
  {
    TailOrdered(l);
    NearDue(now, l[0]);
    NearDue(now, t);
  }

  lemma {:induction false} FrozenScanSpins(now: nat, l: seq<Timer>, t: Timer, n: nat)
    requires Ordered(l) && AllNear(now, l) && t in l && Frozen(now, t)
    ensures !EndsBy(now, l, n)
    decreases n
  {
    FrozenIsFirst(now, l, t);
    if n > 0 {
      NearRest(now, l);
      assert Near(now, t);
      var u := FrozenStays(l, now, t);
      FrozenScanSpins(now, Rest(l), u, n - 1);
    }
  }

  lemma {:induction false} PacedScanEnds(now: nat, l: seq<Timer>)
    requires Ordered(l) && AllPaced(now, l)
    ensures EndsBy(now, l, Work(now, l))
    decreases Work(now, l)
  {
    if !Ended(now, l) {
      RestKeeps(now, l);
      PacedScanEnds(now, Rest(l));
      MoreRounds(now, Rest(l), Work(now, Rest(l)), Work(now, l) - 1);
    }
  }

  lemma {:induction false} MoreRounds(now: nat, l: seq<Timer>, m: nat, n: nat)
    requires m <= n && EndsBy(now, l, m)
    ensures EndsBy(now, l, n)
    decreases m
  {
    if m > 0 && !Ended(now, l) {
      MoreRounds(now, Rest(l), m - 1, n - 1);
    }
  }

  /** The expiry loop terminates if and only if every due periodic timer has a positive period. */
  lemma ScanEndsExactlyWhen(now: nat, l: seq<Timer>)
    requires Ordered(l) && AllNear(now, l)
    ensures (exists n: nat :: EndsBy(now, l, n)) <==> forall t :: t in l ==> !Frozen(now, t)
  {
    if exists t :: t in l && Frozen(now, t) {
      var t :| t in l && Frozen(now, t);
      forall n: nat ensures !EndsBy(now, l, n) {
        FrozenScanSpins(now, l, t, n);
      }
    } else {
      assert forall t :: t in l && Near(now, t) && !Frozen(now, t) ==> Paced(now, t);
      PacedScanEnds(now, l);
      assert EndsBy(now, l, Work(now, l));
    }
  }

  // ----- deadlines on both sides of the wrap -----

  /** One timer due before the wrap, one pending after it: the due one stands behind and is not fired. So it is for a
      period of 8 and one of 32 started 16 ticks before the wrap and scanned 8 ticks later. */
  lemma WrapHidesADueTimer(a: Timer, b: Timer, now: nat, scan: nat)
    requires a.id != b.id && !a.active && !b.active && a.period != FOREVER && b.period != FOREVER
    requires scan < U32 && Armed(b, now).deadline < Armed(a, now).deadline && !a.periodic
    requires Due(scan, Armed(a, now).deadline) && !Due(scan, Armed(b, now).deadline)
    ensures var (p, q) := (Armed(a, now).(active := true), Armed(b, now));
            && Start([], a, now).0 == [p] && Start([p], b, now).0 == [q, p]
            && Ordered([q, p]) && AllPaced(scan, [q, p]) && Scan(scan, [q, p]) == ([], [q, p])
  {
    StartAlone(a, now);
    StartBefore(Armed(a, now).(active := true), b, now);
  }

  lemma WrapExample()
    ensures var (a, b) := (Timer(0, 0, 8, false, false), Timer(1, 0, 32, false, false));
            var (now, scan) := (0xFFFF_FFF0, 0xFFFF_FFF8);
            && Armed(b, now).deadline < Armed(a, now).deadline
            && Due(scan, Armed(a, now).deadline) && !Due(scan, Armed(b, now).deadline)
  {
  }
}
