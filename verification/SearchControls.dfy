// Daily Search budgets (src/search_controls.rs).
//
// `SearchBudgets` is the table state changed one command at a time.  The rest of the module is the
// real schedule: a claim is a sequence of SQL statements that take an actor lock, then a supplier row
// lock, and other claims and control edits run between any two of them.  The two are tied together by
// `AdvanceRefinesAtomic`.
module SearchControls {
  import opened Wrappers

  type Day = int

  const MAX_LIMIT: int := 1000000

  // subject is the portal user; a machine client without a linked owner has none.
  datatype Usage = Usage(id: nat, client: string, subject: Option<string>)

  function ActorKey(usage: Usage): string {
    match usage.subject
    case Some(subject) => subject
    case None => "client:" + usage.client
  }

  datatype UserControl = UserControl(enabled: bool, limit: Option<int>, version: int)
  datatype SupplierLimit = SupplierLimit(limit: Option<int>, version: int)

  datatype Counter = ActorCounter(actor: string) | SupplierCounter(supplier: string)
  datatype Hit = Hit(day: Day, counter: Counter)
  datatype ClaimKey = ClaimKey(search: nat, supplier: string)

  datatype Tables = Tables(
    users: set<string>,
    controls: map<string, UserControl>,
    limits: map<string, SupplierLimit>,
    hits: map<Hit, nat>,
    claims: map<ClaimKey, bool>)

  datatype Outcome =
    | Dispatched
    | UserSearchDisabled
    | UserDailyLimitReached
    | SupplierDailyLimitReached
    | AlreadyClaimed
    | UnknownSupplier
    | Saved
    | Invalid
    | Changed

  function HitsOf(hits: map<Hit, nat>, hit: Hit): nat {
    if hit in hits then hits[hit] else 0
  }

  function Bumped(hits: map<Hit, nat>, hit: Hit): map<Hit, nat> {
    hits[hit := HitsOf(hits, hit) + 1]
  }

  function ControlOf(tables: Tables, usage: Usage): Option<UserControl> {
    if usage.subject.Some? && usage.subject.value in tables.controls
    then Some(tables.controls[usage.subject.value])
    else None
  }

  predicate Reached(limit: Option<int>, hits: nat) {
    limit.Some? && hits >= limit.value
  }

  function UserLimit(control: Option<UserControl>): Option<int> {
    if control.Some? then control.value.limit else None
  }

  function Verdict(control: Option<UserControl>, actorHits: nat,
                   limit: Option<int>, supplierHits: nat): Outcome
  {
    if control.Some? && !control.value.enabled then UserSearchDisabled
    else if Reached(UserLimit(control), actorHits) then UserDailyLimitReached
    else if Reached(limit, supplierHits) then SupplierDailyLimitReached
    else Dispatched
  }

  // The writes of a claim whose verdict is known: one usage row, and on dispatch both counters.
  function Settle(tables: Tables, usage: Usage, supplier: string, day: Day, verdict: Outcome): (Tables, Outcome) {
    var key := ClaimKey(usage.id, supplier);
    if key in tables.claims then (tables, AlreadyClaimed)
    else if verdict != Dispatched then (tables.(claims := tables.claims[key := false]), verdict)
    else
      var hits := Bumped(tables.hits, Hit(day, ActorCounter(ActorKey(usage))));
      (tables.(claims := tables.claims[key := true],
               hits := Bumped(hits, Hit(day, SupplierCounter(supplier)))),
       Dispatched)
  }

  function AtomicClaim(tables: Tables, usage: Usage, supplier: string, day: Day): (Tables, Outcome) {
    if supplier !in tables.limits then (tables, UnknownSupplier)
    else
      Settle(tables, usage, supplier, day,
             Verdict(ControlOf(tables, usage), HitsOf(tables.hits, Hit(day, ActorCounter(ActorKey(usage)))),
                     tables.limits[supplier].limit, HitsOf(tables.hits, Hit(day, SupplierCounter(supplier)))))
  }

  // ---- When a claim is dispatched, told from the rows alone ---------------------------------------------

  // Hits so far: a counter without a row stands at zero.
  predicate AtLimit(tables: Tables, hit: Hit, limit: int) {
    (if hit in tables.hits then tables.hits[hit] else 0) >= limit
  }

  // A machine without a portal user counts by its client.
  predicate ActorOf(usage: Usage, actor: string) {
    if usage.subject.Some? then actor == usage.subject.value else actor == "client:" + usage.client
  }

  predicate SwitchedOff(tables: Tables, usage: Usage) {
    usage.subject.Some? && usage.subject.value in tables.controls && !tables.controls[usage.subject.value].enabled
  }

  predicate UserAtLimit(tables: Tables, usage: Usage, actor: string, day: Day) {
    && usage.subject.Some? && usage.subject.value in tables.controls
    && tables.controls[usage.subject.value].limit.Some?
    && AtLimit(tables, Hit(day, ActorCounter(actor)), tables.controls[usage.subject.value].limit.value)
  }

  predicate SupplierAtLimit(tables: Tables, supplier: string, day: Day) {
    && supplier in tables.limits && tables.limits[supplier].limit.Some?
    && AtLimit(tables, Hit(day, SupplierCounter(supplier)), tables.limits[supplier].limit.value)
  }

  predicate NewClaim(tables: Tables, usage: Usage, supplier: string) {
    supplier in tables.limits && ClaimKey(usage.id, supplier) !in tables.claims
  }

  // Which of its six answers a claim gets; of several reasons to refuse it the first listed counts.
  predicate Decides(tables: Tables, usage: Usage, supplier: string, actor: string, day: Day, outcome: Outcome) {
    var off, user, full := SwitchedOff(tables, usage), UserAtLimit(tables, usage, actor, day), SupplierAtLimit(tables, supplier, day);
    && (outcome == UnknownSupplier <==> supplier !in tables.limits)
    && (outcome == AlreadyClaimed <==> supplier in tables.limits && ClaimKey(usage.id, supplier) in tables.claims)
    && (outcome == UserSearchDisabled <==> NewClaim(tables, usage, supplier) && off)
    && (outcome == UserDailyLimitReached <==> NewClaim(tables, usage, supplier) && !off && user)
    && (outcome == SupplierDailyLimitReached <==> NewClaim(tables, usage, supplier) && !off && !user && full)
    && (outcome == Dispatched <==> NewClaim(tables, usage, supplier) && !off && !user && !full)
  }

  // What a decided claim leaves behind: its usage row if it is new, and one hit for the actor and one for
  // the supplier if it is dispatched.
  ghost predicate Books(was: Tables, usage: Usage, supplier: string, actor: string, day: Day, outcome: Outcome, now: Tables) {
    && now.users == was.users && now.controls == was.controls && now.limits == was.limits
    && now.claims == (if NewClaim(was, usage, supplier) then was.claims[ClaimKey(usage.id, supplier) := outcome == Dispatched]
                      else was.claims)
    && (outcome != Dispatched ==> now.hits == was.hits)
    && (outcome == Dispatched ==>
          forall hit ::
            (if hit in now.hits then now.hits[hit] else 0) ==
            (if hit in was.hits then was.hits[hit] else 0) +
            (if hit == Hit(day, ActorCounter(actor)) || hit == Hit(day, SupplierCounter(supplier)) then 1 else 0))
  }

  lemma ClaimedExactlyWhen(tables: Tables, usage: Usage, supplier: string, actor: string, day: Day)
    requires ActorOf(usage, actor)
    ensures var done := AtomicClaim(tables, usage, supplier, day);
            && Decides(tables, usage, supplier, actor, day, done.1)
            && Books(tables, usage, supplier, actor, day, done.1, done.0)
  {
    assert ActorKey(usage) == actor;
  }

  predicate UserEditValid(users: set<string>, subject: string, limit: Option<int>, expected: int) {
    && (limit.Some? ==> 1 <= limit.value <= MAX_LIMIT)
    && expected >= 0
    && |subject| <= 128
    && subject in users
  }

  predicate SupplierEditValid(supplier: string, limit: Option<int>, expected: int) {
    && supplier in ["firsttrip", "takeoff", "triplover"]
    && (limit.Some? ==> 0 <= limit.value <= MAX_LIMIT)
    && expected >= 1
  }

  function AtomicUserEdit(tables: Tables, subject: string, enabled: bool,
                          limit: Option<int>, expected: int): (Tables, Outcome)
  {
    if !UserEditValid(tables.users, subject, limit, expected) then (tables, Invalid)
    else if expected == 0 then
      if subject in tables.controls then (tables, Changed)
      else (tables.(controls := tables.controls[subject := UserControl(enabled, limit, 1)]), Saved)
    else if subject in tables.controls && tables.controls[subject].version == expected then
      (tables.(controls := tables.controls[subject := UserControl(enabled, limit, expected + 1)]), Saved)
    else (tables, Changed)
  }

  predicate Matches(tables: Tables, supplier: string, expected: int) {
    supplier in tables.limits && tables.limits[supplier].version == expected
  }

  function AtomicSupplierEdit(tables: Tables, supplier: string, limit: Option<int>, expected: int): (Tables, Outcome) {
    if !SupplierEditValid(supplier, limit, expected) then (tables, Invalid)
    else if Matches(tables, supplier, expected) then
      (tables.(limits := tables.limits[supplier := SupplierLimit(limit, expected + 1)]), Saved)
    else (tables, Changed)
  }

  // The tables, changed one whole command at a time.
  class SearchBudgets {
    const users: set<string>
    var controls: map<string, UserControl>
    var limits: map<string, SupplierLimit>
    var hits: map<Hit, nat>
    var claims: map<ClaimKey, bool>

    function Contents(): Tables
      reads this
    {
      Tables(users, controls, limits, hits, claims)
    }

    constructor (users: set<string>, suppliers: set<string>)
      ensures Contents() == Tables(users, map[], map supplier | supplier in suppliers :: SupplierLimit(None, 1), map[], map[])
    {
      this.users := users;
      controls, hits, claims := map[], map[], map[];
      limits := map supplier | supplier in suppliers :: SupplierLimit(None, 1);
    }

    method Count(hit: Hit)
      modifies this`hits
      ensures hits == Bumped(old(hits), hit)
    {
      hits := hits[hit := (if hit in hits then hits[hit] else 0) + 1];
    }

    method Judge(usage: Usage, supplier: string, day: Day) returns (verdict: Outcome)
      requires supplier in limits
      ensures verdict == Verdict(ControlOf(Contents(), usage), HitsOf(hits, Hit(day, ActorCounter(ActorKey(usage)))),
                                 limits[supplier].limit, HitsOf(hits, Hit(day, SupplierCounter(supplier))))
    {
      var control := None;
      if usage.subject.Some? && usage.subject.value in controls {
        control := Some(controls[usage.subject.value]);
      }
      var limit := limits[supplier].limit;
      var actorHit := Hit(day, ActorCounter(ActorKey(usage)));
      var supplierHit := Hit(day, SupplierCounter(supplier));
      var actorHits := if actorHit in hits then hits[actorHit] else 0;
      var supplierHits := if supplierHit in hits then hits[supplierHit] else 0;
      if control.Some? && !control.value.enabled {
        verdict := UserSearchDisabled;
      } else if control.Some? && control.value.limit.Some? && actorHits >= control.value.limit.value {
        verdict := UserDailyLimitReached;
      } else if limit.Some? && supplierHits >= limit.value {
        verdict := SupplierDailyLimitReached;
      } else {
        verdict := Dispatched;
      }
    }

    method Claim(usage: Usage, supplier: string, day: Day) returns (outcome: Outcome)
      modifies this`hits, this`claims
      ensures (Contents(), outcome) == AtomicClaim(old(Contents()), usage, supplier, day)
      // A new claim on a known supplier is dispatched exactly when nothing in the rows refuses it.
      ensures forall actor :: ActorOf(usage, actor) ==>
                && Decides(old(Contents()), usage, supplier, actor, day, outcome)
                && Books(old(Contents()), usage, supplier, actor, day, outcome, Contents())
    {
      ghost var was := Contents();
      forall actor | ActorOf(usage, actor)
        ensures Decides(was, usage, supplier, actor, day, AtomicClaim(was, usage, supplier, day).1)
        ensures Books(was, usage, supplier, actor, day, AtomicClaim(was, usage, supplier, day).1, AtomicClaim(was, usage, supplier, day).0)
      {
        ClaimedExactlyWhen(was, usage, supplier, actor, day);
      }
      hide Decides, Books, ActorOf, Verdict, HitsOf, ControlOf, Bumped, ActorKey;
      if supplier !in limits {
        return UnknownSupplier;
      }
      outcome := Judge(usage, supplier, day);
      var key := ClaimKey(usage.id, supplier);
      if key in claims {
        return AlreadyClaimed;
      }
      claims := claims[key := outcome == Dispatched];
      if outcome == Dispatched {
        Count(Hit(day, ActorCounter(ActorKey(usage))));
        Count(Hit(day, SupplierCounter(supplier)));
      }
    }

    method SaveUser(subject: string, enabled: bool, limit: Option<int>, expected: int) returns (outcome: Outcome)
      modifies this`controls
      ensures (Contents(), outcome) == AtomicUserEdit(old(Contents()), subject, enabled, limit, expected)
      // Saved exactly from the version seen, 0 for no row yet; the version goes up and nothing else moves.
      ensures outcome == Saved <==>
                && UserEditValid(users, subject, limit, expected)
                && (if expected == 0 then subject !in old(controls)
                    else subject in old(controls) && old(controls)[subject].version == expected)
      ensures controls == if outcome == Saved then old(controls)[subject := UserControl(enabled, limit, expected + 1)] else old(controls)
      ensures outcome == Saved || outcome == (if UserEditValid(users, subject, limit, expected) then Changed else Invalid)
    {
      if limit.Some? && (limit.value < 1 || limit.value > MAX_LIMIT) {
        return Invalid;
      }
      if expected < 0 || |subject| > 128 || subject !in users {
        return Invalid;
      }
      if expected == 0 {
        if subject in controls {
          return Changed;
        }
        controls := controls[subject := UserControl(enabled, limit, 1)];
      } else {
        if subject !in controls || controls[subject].version != expected {
          return Changed;
        }
        controls := controls[subject := UserControl(enabled, limit, controls[subject].version + 1)];
      }
      outcome := Saved;
    }

    method SaveSupplier(supplier: string, limit: Option<int>, expected: int) returns (outcome: Outcome)
      modifies this`limits
      ensures (Contents(), outcome) == AtomicSupplierEdit(old(Contents()), supplier, limit, expected)
      // A supplier's row is only ever changed from the version seen, never created.
      ensures outcome == Saved <==>
                && SupplierEditValid(supplier, limit, expected)
                && supplier in old(limits) && old(limits)[supplier].version == expected
      ensures limits == if outcome == Saved then old(limits)[supplier := SupplierLimit(limit, expected + 1)] else old(limits)
      ensures limits.Keys == old(limits.Keys)
      ensures outcome == Saved || outcome == (if SupplierEditValid(supplier, limit, expected) then Changed else Invalid)
    {
      if supplier != "firsttrip" && supplier != "takeoff" && supplier != "triplover" {
        return Invalid;
      }
      if expected < 1 || (limit.Some? && (limit.value < 0 || limit.value > MAX_LIMIT)) {
        return Invalid;
      }
      if supplier !in limits || limits[supplier].version != expected {
        return Changed;
      }
      limits := limits[supplier := SupplierLimit(limit, limits[supplier].version + 1)];
      outcome := Saved;
    }
  }

  // ---- The interleaved protocol -------------------------------------------------------------

  datatype Phase =
    | Starting            // nothing held
    | ActorLocked         // advisory lock on the actor key
    | ControlRead
    | SupplierLocked      // row lock on the supplier limit, and its limit read
    | DayRead
    | ActorHitsRead
    | SupplierHitsRead

  datatype Transaction =
    | Claiming(usage: Usage, supplier: string, phase: Phase, control: Option<UserControl>, limit: Option<int>,
               day: Day, actorHits: nat, supplierHits: nat)
    | EditingUser(subject: string, enabled: bool, userLimit: Option<int>, expected: int, locked: bool)
    | EditingSupplier(edited: string, newLimit: Option<int>, expected: int, locked: bool)

  // One counted dispatch, with what its claim had read.
  datatype Dispatch = Dispatch(day: Day, usage: Usage, supplier: string, control: Option<UserControl>,
                               limit: Option<int>, actorHits: nat, supplierHits: nat)

  datatype System = System(
    tables: Tables,
    running: map<nat, Transaction>,
    results: map<nat, Outcome>,
    today: Day,
    log: seq<Dispatch>)

  // hashtextextended maps lock keys to lock numbers; two keys may share one.
  type Hash = string -> int

  predicate PastStart(t: Transaction) {
    match t
    case Claiming(_, _, phase, _, _, _, _, _) => !phase.Starting?
    case EditingUser(_, _, _, _, locked) => locked
    case EditingSupplier(_, _, _, locked) => locked
  }

  function HeldSlot(hash: Hash, t: Transaction): Option<int> {
    if !PastStart(t) then None
    else match t
      case Claiming(usage, _, _, _, _, _, _, _) => Some(hash(ActorKey(usage)))
      case EditingUser(subject, _, _, _, _) => Some(hash(subject))
      case EditingSupplier(_, _, _, _) => None
  }

  function HeldRow(t: Transaction): Option<string> {
    match t
    case Claiming(_, supplier, phase, _, _, _, _, _) =>
      if phase.Starting? || phase.ActorLocked? || phase.ControlRead? then None else Some(supplier)
    case EditingUser(_, _, _, _, _) => None
    case EditingSupplier(edited, _, _, locked) => if locked then Some(edited) else None
  }

  ghost predicate SlotFree(hash: Hash, s: System, slot: int) {
    forall p :: p in s.running ==> HeldSlot(hash, s.running[p]) != Some(slot)
  }

  ghost predicate RowFree(s: System, supplier: string) {
    forall p :: p in s.running ==> HeldRow(s.running[p]) != Some(supplier)
  }

  // A transaction waits only for a lock someone else holds.
  ghost predicate Enabled(hash: Hash, s: System, p: nat) {
    && p in s.running
    && match s.running[p]
       case Claiming(usage, supplier, phase, _, _, _, _, _) =>
         && (phase.Starting? ==> SlotFree(hash, s, hash(ActorKey(usage))))
         && (phase.ControlRead? && supplier in s.tables.limits ==> RowFree(s, supplier))
       case EditingUser(subject, _, limit, expected, locked) =>
         !locked && UserEditValid(s.tables.users, subject, limit, expected) ==> SlotFree(hash, s, hash(subject))
       case EditingSupplier(edited, limit, expected, locked) =>
         !locked && SupplierEditValid(edited, limit, expected) && Matches(s.tables, edited, expected) ==> RowFree(s, edited)
  }

  function Continue(s: System, p: nat, t: Transaction): System {
    s.(running := s.running[p := t])
  }

  function Finish(s: System, p: nat, done: (Tables, Outcome)): System {
    s.(tables := done.0, running := s.running - {p}, results := s.results[p := done.1])
  }

  function Logged(s: System, t: Transaction, outcome: Outcome): seq<Dispatch>
    requires t.Claiming?
  {
    if outcome == Dispatched
    then s.log + [Dispatch(t.day, t.usage, t.supplier, t.control, t.limit, t.actorHits, t.supplierHits)]
    else s.log
  }

  // The next statement of a claim.  Reads see what is committed now; writes happen on commit, and
  // the verdict is taken from the values read earlier.
  function AdvanceClaim(s: System, p: nat, t: Transaction): System
    requires t.Claiming?
  {
    match t.phase
    case Starting => Continue(s, p, t.(phase := ActorLocked))
    case ActorLocked => Continue(s, p, t.(phase := ControlRead, control := ControlOf(s.tables, t.usage)))
    case ControlRead =>
      if t.supplier !in s.tables.limits then Finish(s, p, (s.tables, UnknownSupplier))
      else Continue(s, p, t.(phase := SupplierLocked, limit := s.tables.limits[t.supplier].limit))
    case SupplierLocked => Continue(s, p, t.(phase := DayRead, day := s.today))
    case DayRead =>
      Continue(s, p, t.(phase := ActorHitsRead,
                        actorHits := HitsOf(s.tables.hits, Hit(t.day, ActorCounter(ActorKey(t.usage))))))
    case ActorHitsRead =>
      Continue(s, p, t.(phase := SupplierHitsRead,
                        supplierHits := HitsOf(s.tables.hits, Hit(t.day, SupplierCounter(t.supplier)))))
    case SupplierHitsRead =>
      var done := Settle(s.tables, t.usage, t.supplier, t.day, Verdict(t.control, t.actorHits, t.limit, t.supplierHits));
      Finish(s, p, done).(log := Logged(s, t, done.1))
  }

  function AdvanceEdit(s: System, p: nat, t: Transaction): System
    requires !t.Claiming?
  {
    match t
    case EditingUser(subject, enabled, limit, expected, locked) =>
      if !UserEditValid(s.tables.users, subject, limit, expected) then Finish(s, p, (s.tables, Invalid))
      else if !locked then Continue(s, p, EditingUser(subject, enabled, limit, expected, true))
      else Finish(s, p, AtomicUserEdit(s.tables, subject, enabled, limit, expected))
    case EditingSupplier(supplier, limit, expected, locked) =>
      if !SupplierEditValid(supplier, limit, expected) then Finish(s, p, (s.tables, Invalid))
      else if !locked then
        if Matches(s.tables, supplier, expected)
        then Continue(s, p, EditingSupplier(supplier, limit, expected, true))
        else Finish(s, p, (s.tables, Changed))
      else Finish(s, p, AtomicSupplierEdit(s.tables, supplier, limit, expected))
  }

  function Advance(s: System, p: nat): System
    requires p in s.running
  {
    var t := s.running[p];
    if t.Claiming? then AdvanceClaim(s, p, t) else AdvanceEdit(s, p, t)
  }

  predicate Fresh(t: Transaction) {
    !PastStart(t)
  }

  // Arrive: a new request.  Tick: the clock, which never runs backwards.  Crash: a connection lost
  // before its commit, which releases its locks.
  datatype Event = Arrive(p: nat, request: Transaction) | Proceed(p: nat) | Tick(day: Day) | Crash(p: nat)

  ghost predicate Step(hash: Hash, s: System, event: Event, next: System) {
    match event
    case Arrive(p, request) =>
      p !in s.running && p !in s.results && Fresh(request) && next == Continue(s, p, request)
    case Proceed(p) => Enabled(hash, s, p) && next == Advance(s, p)
    case Tick(day) => s.today <= day && next == s.(today := day)
    case Crash(p) => p in s.running && next == s.(running := s.running - {p})
  }

  ghost predicate Initial(s: System) {
    s.tables.hits == map[] && s.tables.claims == map[] && s.running == map[] && s.results == map[] && s.log == []
  }

  ghost predicate Run(hash: Hash, states: seq<System>, events: seq<Event>) {
    && |states| == |events| + 1
    && Initial(states[0])
    && forall i {:trigger events[i]} :: 0 <= i < |events| ==> Step(hash, states[i], events[i], states[i + 1])
  }

  // ---- What every run keeps -----------------------------------------------------------------

  predicate Counts(entry: Dispatch, hit: Hit) {
    && entry.day == hit.day
    && match hit.counter
       case ActorCounter(actor) => ActorKey(entry.usage) == actor
       case SupplierCounter(supplier) => entry.supplier == supplier
  }

  function SideKey(entry: Dispatch, actors: bool): Hit {
    Hit(entry.day, if actors then ActorCounter(ActorKey(entry.usage)) else SupplierCounter(entry.supplier))
  }

  function CountOf(log: seq<Dispatch>, hit: Hit): nat {
    if log == [] then 0
    else CountOf(log[..|log| - 1], hit) + if Counts(log[|log| - 1], hit) then 1 else 0
  }

  function KeyOf(entry: Dispatch): ClaimKey {
    ClaimKey(entry.usage.id, entry.supplier)
  }

  ghost predicate Exclusive(hash: Hash, s: System) {
    && (forall p, q :: p in s.running && q in s.running && p != q && HeldSlot(hash, s.running[p]).Some? ==>
          HeldSlot(hash, s.running[p]) != HeldSlot(hash, s.running[q]))
    && (forall p, q :: p in s.running && q in s.running && p != q && HeldRow(s.running[p]).Some? ==>
          HeldRow(s.running[p]) != HeldRow(s.running[q]))
  }

  // What a transaction has read is still what is committed.
  predicate Current(tables: Tables, t: Transaction) {
    match t
    case Claiming(usage, supplier, phase, control, limit, day, actorHits, supplierHits) =>
      && (!phase.Starting? && !phase.ActorLocked? ==> control == ControlOf(tables, usage))
      && (HeldRow(t).Some? ==> supplier in tables.limits && limit == tables.limits[supplier].limit)
      && (phase.ActorHitsRead? || phase.SupplierHitsRead? ==>
            actorHits == HitsOf(tables.hits, Hit(day, ActorCounter(ActorKey(usage)))))
      && (phase.SupplierHitsRead? ==>
            supplierHits == HitsOf(tables.hits, Hit(day, SupplierCounter(supplier))))
    case EditingUser(subject, enabled, limit, expected, locked) =>
      locked ==> UserEditValid(tables.users, subject, limit, expected)
    case EditingSupplier(edited, limit, expected, locked) =>
      locked ==> SupplierEditValid(edited, limit, expected) && Matches(tables, edited, expected)
  }

  ghost predicate AllCurrent(s: System) {
    forall p :: p in s.running ==> Current(s.tables, s.running[p])
  }

  ghost predicate Counted(hits: map<Hit, nat>, log: seq<Dispatch>) {
    forall hit :: HitsOf(hits, hit) == CountOf(log, hit)
  }

  // Every dispatch was strictly below both limits, counting the dispatches before it.
  predicate WithinLimits(before: seq<Dispatch>, entry: Dispatch) {
    && (entry.control.Some? ==> entry.control.value.enabled)
    && entry.actorHits == CountOf(before, Hit(entry.day, ActorCounter(ActorKey(entry.usage))))
    && entry.supplierHits == CountOf(before, Hit(entry.day, SupplierCounter(entry.supplier)))
    && (UserLimit(entry.control).Some? ==> entry.actorHits < UserLimit(entry.control).value)
    && (entry.limit.Some? ==> entry.supplierHits < entry.limit.value)
  }

  ghost predicate LogWithinLimits(log: seq<Dispatch>) {
    forall i :: 0 <= i < |log| ==> WithinLimits(log[..i], log[i])
  }

  // The dispatched usage rows are exactly the logged dispatches, each logged once.
  ghost predicate ClaimsLogged(claims: map<ClaimKey, bool>, log: seq<Dispatch>) {
    && (forall i :: 0 <= i < |log| ==> KeyOf(log[i]) in claims && claims[KeyOf(log[i])])
    && (forall i, j :: 0 <= i < j < |log| ==> KeyOf(log[i]) != KeyOf(log[j]))
    && (forall key :: key in claims && claims[key] ==> exists i :: 0 <= i < |log| && KeyOf(log[i]) == key)
  }

  ghost predicate LogSound(tables: Tables, log: seq<Dispatch>) {
    Counted(tables.hits, log) && LogWithinLimits(log) && ClaimsLogged(tables.claims, log)
  }

  ghost predicate Safe(hash: Hash, s: System) {
    && Exclusive(hash, s)
    && AllCurrent(s)
    && LogSound(s.tables, s.log)
  }

  // ---- Each step keeps the invariant ----------------------------------------------------------

  // A transaction gains at most the lock it was waiting for.
  ghost predicate GainsFreeLocks(hash: Hash, s: System, was: Transaction, now: Transaction) {
    && (HeldSlot(hash, now) == HeldSlot(hash, was) ||
        (HeldSlot(hash, now).Some? && SlotFree(hash, s, HeldSlot(hash, now).value)))
    && (HeldRow(now) == HeldRow(was) || (HeldRow(now).Some? && RowFree(s, HeldRow(now).value)))
  }

  lemma ClaimLocks(hash: Hash, s: System, p: nat, t: Transaction)
    requires Enabled(hash, s, p) && t == s.running[p] && t.Claiming?
    ensures var next := AdvanceClaim(s, p, t);
            && (next.running == s.running - {p} ||
                (p in next.running && next.running == s.running[p := next.running[p]]))
            && (p in next.running ==> GainsFreeLocks(hash, s, t, next.running[p]))
  {
    hide Settle, Verdict, HitsOf, ControlOf, SlotFree, RowFree;
  }

  lemma EditLocks(hash: Hash, s: System, p: nat, t: Transaction)
    requires Enabled(hash, s, p) && t == s.running[p] && !t.Claiming?
    ensures var next := AdvanceEdit(s, p, t);
            && (next.running == s.running - {p} ||
                (p in next.running && next.running == s.running[p := next.running[p]]))
            && (p in next.running ==> GainsFreeLocks(hash, s, t, next.running[p]))
  {
    hide AtomicUserEdit, AtomicSupplierEdit, UserEditValid, SupplierEditValid, SlotFree, RowFree, Matches;
  }

  lemma AdvanceLocks(hash: Hash, s: System, p: nat)
    requires Enabled(hash, s, p)
    ensures var next := Advance(s, p);
            && (next.running == s.running - {p} ||
                (p in next.running && next.running == s.running[p := next.running[p]]))
            && (p in next.running ==> GainsFreeLocks(hash, s, s.running[p], next.running[p]))
  {
    var t := s.running[p];
    if t.Claiming? {
      ClaimLocks(hash, s, p, t);
    } else {
      EditLocks(hash, s, p, t);
    }
    hide AdvanceClaim, AdvanceEdit, GainsFreeLocks, Enabled;
  }

  lemma RelockedExclusive(hash: Hash, s: System, p: nat, now: Transaction)
    requires Exclusive(hash, s) && p in s.running && GainsFreeLocks(hash, s, s.running[p], now)
    ensures Exclusive(hash, Continue(s, p, now))
  {
    hide HeldSlot, HeldRow;
  }

  lemma ExclusiveKept(hash: Hash, s: System, event: Event, next: System)
    requires Exclusive(hash, s) && Step(hash, s, event, next)
    ensures Exclusive(hash, next)
  {
    if event.Proceed? {
      var p := event.p;
      AdvanceLocks(hash, s, p);
      hide Advance, HeldSlot, HeldRow, GainsFreeLocks, Enabled;
      if p in next.running {
        RelockedExclusive(hash, s, p, next.running[p]);
      }
    } else if event.Arrive? {
      assert HeldSlot(hash, event.request).None? && HeldRow(event.request).None?;
      hide HeldSlot, HeldRow;
    } else {
      hide HeldSlot, HeldRow;
    }
  }

  lemma AdvanceOwnReads(hash: Hash, s: System, p: nat)
    requires Enabled(hash, s, p) && Current(s.tables, s.running[p])
    ensures var next := Advance(s, p);
            p in next.running ==> next.tables == s.tables && Current(next.tables, next.running[p])
  {
    hide Settle, AtomicUserEdit, AtomicSupplierEdit, Verdict, HitsOf, UserEditValid, SupplierEditValid, ControlOf;
  }

  // A commit changes only rows its own locks protect.
  lemma SettleLeaves(tables: Tables, t: Transaction, verdict: Outcome, q: Transaction, hash: Hash)
    requires t.Claiming? && t.phase.SupplierHitsRead?
    requires Current(tables, q)
    requires HeldSlot(hash, q).Some? ==> HeldSlot(hash, t) != HeldSlot(hash, q)
    requires HeldRow(q).Some? ==> HeldRow(t) != HeldRow(q)
    ensures Current(Settle(tables, t.usage, t.supplier, t.day, verdict).0, q)
  {
    hide UserEditValid, SupplierEditValid;
  }

  lemma EditLeaves(tables: Tables, t: Transaction, q: Transaction, hash: Hash)
    requires !t.Claiming? && t.locked
    requires Current(tables, q)
    requires HeldSlot(hash, q).Some? && HeldSlot(hash, t).Some? ==> HeldSlot(hash, t) != HeldSlot(hash, q)
    requires HeldRow(q).Some? ==> HeldRow(t) != HeldRow(q)
    ensures t.EditingUser? ==> Current(AtomicUserEdit(tables, t.subject, t.enabled, t.userLimit, t.expected).0, q)
    ensures t.EditingSupplier? ==> Current(AtomicSupplierEdit(tables, t.edited, t.newLimit, t.expected).0, q)
  {
    hide UserEditValid, SupplierEditValid, HitsOf;
  }

  lemma AdvanceOthersReads(hash: Hash, s: System, p: nat, q: nat)
    requires Exclusive(hash, s) && Enabled(hash, s, p) && q in s.running && q != p
    requires Current(s.tables, s.running[q])
    ensures Current(Advance(s, p).tables, s.running[q])
  {
    var t := s.running[p];
    var other := s.running[q];
    if t.Claiming? {
      if t.phase.SupplierHitsRead? {
        SettleLeaves(s.tables, t, Verdict(t.control, t.actorHits, t.limit, t.supplierHits), other, hash);
        hide Current, Settle, Verdict;
      } else {
        hide Current;
      }
    } else if t.locked {
      EditLeaves(s.tables, t, other, hash);
      hide Current, AtomicUserEdit, AtomicSupplierEdit;
    } else {
      hide Current;
    }
  }

  lemma AllCurrentKept(hash: Hash, s: System, event: Event, next: System)
    requires Exclusive(hash, s) && AllCurrent(s) && Step(hash, s, event, next)
    ensures AllCurrent(next)
  {
    match event
    case Proceed(p) =>
      AdvanceLocks(hash, s, p);
      AdvanceOwnReads(hash, s, p);
      forall q | q in next.running
        ensures Current(next.tables, next.running[q])
      {
        if q != p {
          AdvanceOthersReads(hash, s, p, q);
        }
        hide Advance, Current, Exclusive, Enabled;
      }
    case Arrive(p, request) =>
      assert Current(next.tables, request);
      hide Current;
    case Tick(day) => hide Current;
    case Crash(p) => hide Current;
  }

  // Only a dispatching commit touches the counters, the usage rows marked dispatched and the log.
  lemma ClaimCommits(hash: Hash, s: System, p: nat)
    requires Enabled(hash, s, p) && Current(s.tables, s.running[p])
    ensures var next, t := Advance(s, p), s.running[p];
            if t.Claiming? && t.phase.SupplierHitsRead? then
              && (next.tables, next.results[p]) == AtomicClaim(s.tables, t.usage, t.supplier, t.day)
              && next.log == Logged(s, t, next.results[p])
            else next.tables.hits == s.tables.hits && next.tables.claims == s.tables.claims && next.log == s.log
  {
    hide HitsOf, UserEditValid, SupplierEditValid, ControlOf;
  }

  lemma CountOfAppended(log: seq<Dispatch>, entry: Dispatch, hit: Hit)
    ensures CountOf(log + [entry], hit) == CountOf(log, hit) + if Counts(entry, hit) then 1 else 0
  {
    assert (log + [entry])[..|log|] == log;
  }

  lemma BumpedAt(hits: map<Hit, nat>, entry: Dispatch, hit: Hit)
    ensures HitsOf(Bumped(Bumped(hits, SideKey(entry, true)), SideKey(entry, false)), hit) ==
            HitsOf(hits, hit) + if Counts(entry, hit) then 1 else 0
  {
  }

  lemma DispatchCounted(hits: map<Hit, nat>, log: seq<Dispatch>, entry: Dispatch)
    requires Counted(hits, log)
    ensures Counted(Bumped(Bumped(hits, SideKey(entry, true)), SideKey(entry, false)), log + [entry])
  {
    hide HitsOf, Bumped, CountOf, Counts, SideKey;
    forall hit
      ensures HitsOf(Bumped(Bumped(hits, SideKey(entry, true)), SideKey(entry, false)), hit) == CountOf(log + [entry], hit)
    {
      BumpedAt(hits, entry, hit);
      CountOfAppended(log, entry, hit);
      assert HitsOf(hits, hit) == CountOf(log, hit);
    }
  }

  lemma LimitsAppended(log: seq<Dispatch>, entry: Dispatch)
    requires LogWithinLimits(log) && WithinLimits(log, entry)
    ensures LogWithinLimits(log + [entry])
  {
    var longer := log + [entry];
    forall i | 0 <= i < |longer| ensures WithinLimits(longer[..i], longer[i]) {
      if i < |log| {
        assert longer[..i] == log[..i];
        assert WithinLimits(log[..i], log[i]);
      } else {
        assert longer[..i] == log;
      }
    }
  }

  lemma ClaimLogged(claims: map<ClaimKey, bool>, log: seq<Dispatch>, entry: Dispatch)
    requires ClaimsLogged(claims, log) && KeyOf(entry) !in claims
    ensures ClaimsLogged(claims[KeyOf(entry) := true], log + [entry])
  {
    var longer, now := log + [entry], claims[KeyOf(entry) := true];
    forall key | key in now && now[key]
      ensures exists i :: 0 <= i < |longer| && KeyOf(longer[i]) == key
    {
      if key == KeyOf(entry) {
        assert KeyOf(longer[|log|]) == key;
      } else {
        var i :| 0 <= i < |log| && KeyOf(log[i]) == key;
        assert KeyOf(longer[i]) == key;
      }
    }
  }

  lemma DispatchLogged(hash: Hash, s: System, p: nat)
    requires Enabled(hash, s, p) && Current(s.tables, s.running[p])
    requires Counted(s.tables.hits, s.log) && LogWithinLimits(s.log) && ClaimsLogged(s.tables.claims, s.log)
    requires s.running[p].Claiming? && s.running[p].phase.SupplierHitsRead?
    requires Advance(s, p).results[p] == Dispatched
    ensures var next := Advance(s, p);
            Counted(next.tables.hits, next.log) && LogWithinLimits(next.log) && ClaimsLogged(next.tables.claims, next.log)
  {
    ClaimCommits(hash, s, p);
    var t, next := s.running[p], Advance(s, p);
    var entry := Dispatch(t.day, t.usage, t.supplier, t.control, t.limit, t.actorHits, t.supplierHits);
    hide Advance, Enabled, Counted, LogWithinLimits, ClaimsLogged, HitsOf, CountOf;
    assert next.log == s.log + [entry];
    assert WithinLimits(s.log, entry) by {
      assert HitsOf(s.tables.hits, SideKey(entry, true)) == CountOf(s.log, SideKey(entry, true)) by { CountedAt(s, SideKey(entry, true)); }
      assert HitsOf(s.tables.hits, SideKey(entry, false)) == CountOf(s.log, SideKey(entry, false)) by { CountedAt(s, SideKey(entry, false)); }
    }
    DispatchCounted(s.tables.hits, s.log, entry);
    LimitsAppended(s.log, entry);
    ClaimLogged(s.tables.claims, s.log, entry);
  }

  lemma CountedAt(s: System, hit: Hit)
    requires Counted(s.tables.hits, s.log)
    ensures HitsOf(s.tables.hits, hit) == CountOf(s.log, hit)
  {
  }

  lemma ClaimBlocked(claims: map<ClaimKey, bool>, log: seq<Dispatch>, key: ClaimKey)
    requires ClaimsLogged(claims, log) && key !in claims
    ensures ClaimsLogged(claims[key := false], log)
  {
    var now := claims[key := false];
    forall other | other in now && now[other]
      ensures exists i :: 0 <= i < |log| && KeyOf(log[i]) == other
    {
      assert other in claims && claims[other];
    }
  }

  // A claim that does not dispatch leaves the counters alone and marks nothing dispatched.
  lemma SettleBlocked(tables: Tables, usage: Usage, supplier: string, day: Day, verdict: Outcome, log: seq<Dispatch>)
    requires LogSound(tables, log)
    requires Settle(tables, usage, supplier, day, verdict).1 != Dispatched
    ensures LogSound(Settle(tables, usage, supplier, day, verdict).0, log)
  {
    hide Counted, LogWithinLimits, ClaimsLogged;
    if ClaimKey(usage.id, supplier) !in tables.claims {
      ClaimBlocked(tables.claims, log, ClaimKey(usage.id, supplier));
    }
  }

  lemma AdvanceLogKept(hash: Hash, s: System, p: nat)
    requires Enabled(hash, s, p) && Current(s.tables, s.running[p]) && LogSound(s.tables, s.log)
    ensures LogSound(Advance(s, p).tables, Advance(s, p).log)
  {
    hide Counted, LogWithinLimits, ClaimsLogged, SlotFree, RowFree, HitsOf, Verdict, Settle, ControlOf;
    var t, next := s.running[p], Advance(s, p);
    if t.Claiming? && t.phase.SupplierHitsRead? {
      var verdict := Verdict(t.control, t.actorHits, t.limit, t.supplierHits);
      if Settle(s.tables, t.usage, t.supplier, t.day, verdict).1 == Dispatched {
        DispatchLogged(hash, s, p);
      } else {
        SettleBlocked(s.tables, t.usage, t.supplier, t.day, verdict, s.log);
      }
    }
  }

  lemma LogKept(hash: Hash, s: System, event: Event, next: System)
    requires Safe(hash, s) && Step(hash, s, event, next)
    ensures LogSound(next.tables, next.log)
  {
    if event.Proceed? {
      assert Current(s.tables, s.running[event.p]);
      AdvanceLogKept(hash, s, event.p);
      hide Advance, LogSound, Enabled;
    } else {
      hide Counted, LogWithinLimits, ClaimsLogged, Exclusive, AllCurrent;
    }
  }

  lemma StepIsSafe(hash: Hash, s: System, event: Event, next: System)
    requires Safe(hash, s) && Step(hash, s, event, next)
    ensures Safe(hash, next)
  {
    ExclusiveKept(hash, s, event, next);
    AllCurrentKept(hash, s, event, next);
    LogKept(hash, s, event, next);
  }

  lemma {:induction false} RunIsSafe(hash: Hash, states: seq<System>, events: seq<Event>)
    requires Run(hash, states, events)
    ensures forall i :: 0 <= i < |states| ==> Safe(hash, states[i])
  {
    if events == [] {
      assert Safe(hash, states[0]);
    } else {
      var n := |events| - 1;
      var earlier, before := states[..n + 1], events[..n];
      assert Run(hash, earlier, before);
      RunIsSafe(hash, earlier, before);
      assert Safe(hash, earlier[n]);
      assert Step(hash, states[n], events[n], states[n + 1]);
      StepIsSafe(hash, states[n], events[n], states[n + 1]);
      forall i | 0 <= i < |states| ensures Safe(hash, states[i]) {
        if i <= n {
          assert states[i] == earlier[i];
        }
      }
    }
  }

  // ---- Main results ---------------------------------------------------------------------------

  function Request(tables: Tables, t: Transaction): (Tables, Outcome) {
    match t
    case Claiming(usage, supplier, _, _, _, day, _, _) => AtomicClaim(tables, usage, supplier, day)
    case EditingUser(subject, enabled, limit, expected, _) => AtomicUserEdit(tables, subject, enabled, limit, expected)
    case EditingSupplier(supplier, limit, expected, _) => AtomicSupplierEdit(tables, supplier, limit, expected)
  }

  ghost predicate Refines(s: System, p: nat, next: System)
    requires p in s.running
  {
    if p in next.running then next.tables == s.tables && next.results == s.results && next.log == s.log
    else
      && p in next.results
      && (next.tables, next.results[p]) == Request(s.tables, s.running[p])
      && next.results == s.results[p := next.results[p]]
      && next.log == if s.running[p].Claiming? then Logged(s, s.running[p], next.results[p]) else s.log
  }

  lemma ClaimRefines(hash: Hash, s: System, p: nat)
    requires Enabled(hash, s, p) && Current(s.tables, s.running[p]) && s.running[p].Claiming?
    ensures Refines(s, p, Advance(s, p))
  {
    hide HitsOf, ControlOf, SlotFree, RowFree, Settle;
    var t := s.running[p];
    if t.phase.SupplierHitsRead? {
      assert Verdict(t.control, t.actorHits, t.limit, t.supplierHits) ==
             Verdict(ControlOf(s.tables, t.usage), HitsOf(s.tables.hits, Hit(t.day, ActorCounter(ActorKey(t.usage)))),
                     s.tables.limits[t.supplier].limit, HitsOf(s.tables.hits, Hit(t.day, SupplierCounter(t.supplier))));
    }
  }

  lemma EditRefines(hash: Hash, s: System, p: nat)
    requires Enabled(hash, s, p) && Current(s.tables, s.running[p]) && !s.running[p].Claiming?
    ensures Refines(s, p, Advance(s, p))
  {
    hide UserEditValid, SupplierEditValid, SlotFree, RowFree;
  }

  // Whatever ran in between, the statement that ends a transaction does what the whole command
  // would have done at that instant, and every earlier statement changes nothing.
  lemma AdvanceRefinesAtomic(hash: Hash, s: System, p: nat)
    requires Safe(hash, s) && Enabled(hash, s, p)
    ensures Refines(s, p, Advance(s, p))
  {
    var t := s.running[p];
    assert Current(s.tables, t);
    if t.Claiming? {
      ClaimRefines(hash, s, p);
    } else {
      EditRefines(hash, s, p);
    }
  }

  // Over every run, the statement that ends a claim decides it by the rows committed at that instant:
  // it is dispatched exactly when nothing in them refuses it, and refused for the first reason they give.
  lemma ClaimDecidedByRows(hash: Hash, states: seq<System>, events: seq<Event>, i: nat, p: nat, actor: string)
    requires Run(hash, states, events) && i < |events| && events[i] == Proceed(p)
    requires p in states[i].running && states[i].running[p].Claiming? && p !in states[i + 1].running
    requires ActorOf(states[i].running[p].usage, actor)
    ensures var was, now, t := states[i].tables, states[i + 1].tables, states[i].running[p];
            && p in states[i + 1].results
            && Decides(was, t.usage, t.supplier, actor, t.day, states[i + 1].results[p])
            && Books(was, t.usage, t.supplier, actor, t.day, states[i + 1].results[p], now)
  {
    RunIsSafe(hash, states, events);
    assert Step(hash, states[i], events[i], states[i + 1]);
    var t := states[i].running[p];
    AdvanceRefinesAtomic(hash, states[i], p);
    ClaimedExactlyWhen(states[i].tables, t.usage, t.supplier, actor, t.day);
    hide Run, Safe, Advance, Enabled, Decides, Books, AtomicClaim, ActorOf;
  }

  // The day was read by the claim itself, once it held both its locks.
  ghost predicate DayFrom(states: seq<System>, events: seq<Event>, k: nat, p: nat, day: Day) {
    && k < |events| && k < |states| && events[k] == Proceed(p) && p in states[k].running && states[k].running[p].Claiming?
    && states[k].running[p].phase.SupplierLocked? && states[k].today == day
  }

  predicate KnowsDay(t: Transaction) {
    t.Claiming? && (t.phase.DayRead? || t.phase.ActorHitsRead? || t.phase.SupplierHitsRead?)
  }

  lemma DayStep(hash: Hash, s: System, event: Event, next: System, p: nat)
    requires Step(hash, s, event, next) && p in next.running && KnowsDay(next.running[p])
    ensures p in s.running
    ensures if KnowsDay(s.running[p]) then next.running[p].day == s.running[p].day
            else event == Proceed(p) && s.running[p].Claiming? && s.running[p].phase.SupplierLocked? && s.today == next.running[p].day
  {
    if event.Proceed? && event.p == p {
      assert p in s.running;
    }
    hide Settle, AtomicUserEdit, AtomicSupplierEdit, UserEditValid, SupplierEditValid, Verdict, HitsOf, ControlOf, SlotFree, RowFree;
  }

  lemma {:induction false} DayReadUnderLocks(hash: Hash, states: seq<System>, events: seq<Event>, i: nat, p: nat) returns (k: nat)
    requires Run(hash, states, events) && i < |states| && p in states[i].running && KnowsDay(states[i].running[p])
    ensures k < i && DayFrom(states, events, k, p, states[i].running[p].day)
    decreases i
  {
    if i == 0 {
      assert false;
    }
    assert Step(hash, states[i - 1], events[i - 1], states[i - 1 + 1]);
    DayStep(hash, states[i - 1], events[i - 1], states[i], p);
    hide Run, Step;
    if KnowsDay(states[i - 1].running[p]) {
      k := DayReadUnderLocks(hash, states, events, i - 1, p);
    } else {
      k := i - 1;
    }
  }

  // What a dispatch recorded is what is in force at its commit, not only when it was read.
  lemma DispatchUnderLimitsInForce(hash: Hash, s: System, p: nat)
    requires Safe(hash, s) && Enabled(hash, s, p)
    requires Advance(s, p).log != s.log
    ensures var t := s.running[p];
            && t.Claiming?
            && t.supplier in s.tables.limits
            && (ControlOf(s.tables, t.usage).Some? ==> ControlOf(s.tables, t.usage).value.enabled)
            && !Reached(UserLimit(ControlOf(s.tables, t.usage)), HitsOf(s.tables.hits, Hit(t.day, ActorCounter(ActorKey(t.usage)))))
            && !Reached(s.tables.limits[t.supplier].limit, HitsOf(s.tables.hits, Hit(t.day, SupplierCounter(t.supplier))))
  {
    AdvanceRefinesAtomic(hash, s, p);
    hide HitsOf, ControlOf, Advance, Safe, Enabled;
  }

  // Some transaction can always run its next statement: row holders never wait, and an actor lock's
  // holder waits only for a row.
  lemma NoDeadlock(hash: Hash, s: System) returns (p: nat)
    requires s.running != map[]
    ensures Enabled(hash, s, p)
  {
    if q :| q in s.running && HeldRow(s.running[q]).Some? {
      p := q;
    } else if q :| q in s.running && PastStart(s.running[q]) {
      p := q;
    } else {
      p :| p in s.running;
    }
  }

  function Remaining(t: Transaction): nat {
    match t
    case Claiming(_, _, phase, _, _, _, _, _) =>
      (match phase
       case Starting => 7 case ActorLocked => 6 case ControlRead => 5 case SupplierLocked => 4
       case DayRead => 3 case ActorHitsRead => 2 case SupplierHitsRead => 1)
    case EditingUser(_, _, _, _, locked) => if locked then 1 else 2
    case EditingSupplier(_, _, _, locked) => if locked then 1 else 2
  }

  lemma EachStatementProgresses(hash: Hash, s: System, p: nat)
    requires Enabled(hash, s, p)
    ensures p in Advance(s, p).running ==> Remaining(Advance(s, p).running[p]) < Remaining(s.running[p])
    ensures Remaining(s.running[p]) == 1 ==> p !in Advance(s, p).running
  {
    hide Settle, AtomicUserEdit, AtomicSupplierEdit, Verdict, HitsOf, UserEditValid, SupplierEditValid, ControlOf, SlotFree, RowFree;
  }

  predicate OnSide(hit: Hit, day: Day, actors: bool) {
    hit.day == day && hit.counter.ActorCounter? == actors
  }

  ghost function SumOver(hits: map<Hit, nat>, keys: set<Hit>): nat {
    if keys == {} then 0
    else
      var key :| key in keys;
      HitsOf(hits, key) + SumOver(hits, keys - {key})
  }

  // All the counters of one kind for one day.
  ghost function DayTotal(hits: map<Hit, nat>, day: Day, actors: bool): nat {
    SumOver(hits, set hit | hit in hits && OnSide(hit, day, actors))
  }

  function DispatchesOn(log: seq<Dispatch>, day: Day): nat {
    if log == [] then 0
    else DispatchesOn(log[..|log| - 1], day) + if log[|log| - 1].day == day then 1 else 0
  }

  ghost function CountsOver(log: seq<Dispatch>, keys: set<Hit>): nat {
    if keys == {} then 0
    else
      var key :| key in keys;
      CountOf(log, key) + CountsOver(log, keys - {key})
  }

  lemma {:induction false} SumIsCounts(hits: map<Hit, nat>, log: seq<Dispatch>, keys: set<Hit>)
    requires Counted(hits, log)
    ensures SumOver(hits, keys) == CountsOver(log, keys)
    decreases keys
  {
    if keys != {} {
      var key :| key in keys && SumOver(hits, keys) == HitsOf(hits, key) + SumOver(hits, keys - {key});
      CountsOverRemove(log, keys, key);
      SumIsCounts(hits, log, keys - {key});
    }
  }

  lemma {:induction false} CountsOverRemove(log: seq<Dispatch>, keys: set<Hit>, key: Hit)
    requires key in keys
    ensures CountsOver(log, keys) == CountOf(log, key) + CountsOver(log, keys - {key})
    decreases keys
  {
    var first :| first in keys && CountsOver(log, keys) == CountOf(log, first) + CountsOver(log, keys - {first});
    if first != key {
      CountsOverRemove(log, keys - {first}, key);
      CountsOverRemove(log, keys - {key}, first);
      assert keys - {first} - {key} == keys - {key} - {first};
    }
  }

  // One more dispatch is counted under exactly one key of its day and side.
  lemma {:induction false} CountsOverAppended(log: seq<Dispatch>, keys: set<Hit>, day: Day, actors: bool)
    requires log != [] && forall key :: key in keys ==> OnSide(key, day, actors)
    ensures CountsOver(log, keys) ==
            CountsOver(log[..|log| - 1], keys) + if SideKey(log[|log| - 1], actors) in keys then 1 else 0
    decreases keys
  {
    if keys != {} {
      var key :| key in keys && CountsOver(log, keys) == CountOf(log, key) + CountsOver(log, keys - {key});
      CountsOverRemove(log[..|log| - 1], keys, key);
      CountsOverAppended(log, keys - {key}, day, actors);
      var entry := log[|log| - 1];
      assert OnSide(key, day, actors);
      assert Counts(entry, key) <==> key == SideKey(entry, actors);
      assert CountOf(log, key) == CountOf(log[..|log| - 1], key) + if Counts(entry, key) then 1 else 0;
      assert SideKey(entry, actors) in keys <==> key == SideKey(entry, actors) || SideKey(entry, actors) in keys - {key};
    }
  }

  lemma {:induction false} SideTotal(log: seq<Dispatch>, keys: set<Hit>, day: Day, actors: bool)
    requires forall key :: key in keys ==> OnSide(key, day, actors)
    requires forall i :: 0 <= i < |log| && log[i].day == day ==> SideKey(log[i], actors) in keys
    ensures CountsOver(log, keys) == DispatchesOn(log, day)
  {
    if log == [] {
      CountsOverNothing(keys);
    } else {
      CountsOverAppended(log, keys, day, actors);
      SideTotal(log[..|log| - 1], keys, day, actors);
    }
  }

  lemma CountsOverNothing(keys: set<Hit>)
    ensures CountsOver([], keys) == 0
    decreases keys
  {
  }

  lemma {:induction false} LoggedKeyCounted(log: seq<Dispatch>, i: nat, hit: Hit)
    requires i < |log| && Counts(log[i], hit)
    ensures CountOf(log, hit) > 0
  {
    if i < |log| - 1 {
      LoggedKeyCounted(log[..|log| - 1], i, hit);
    }
  }

  // Every day the actors' counters, the suppliers' counters and the dispatches agree in total.
  lemma BudgetsConserved(hash: Hash, s: System, day: Day)
    requires Safe(hash, s)
    ensures DayTotal(s.tables.hits, day, true) == DispatchesOn(s.log, day)
    ensures DayTotal(s.tables.hits, day, false) == DispatchesOn(s.log, day)
  {
    SideConserved(s.tables.hits, s.log, day, true);
    SideConserved(s.tables.hits, s.log, day, false);
  }

  lemma SideConserved(hits: map<Hit, nat>, log: seq<Dispatch>, day: Day, actors: bool)
    requires Counted(hits, log)
    ensures DayTotal(hits, day, actors) == DispatchesOn(log, day)
  {
    var keys := set hit | hit in hits && OnSide(hit, day, actors);
    SumIsCounts(hits, log, keys);
    forall i | 0 <= i < |log| && log[i].day == day ensures SideKey(log[i], actors) in keys {
      LoggedKeyCounted(log, i, SideKey(log[i], actors));
      assert HitsOf(hits, SideKey(log[i], actors)) > 0;
    }
    SideTotal(log, keys, day, actors);
  }

  // The whole run: conservation, both limits at every dispatch, and one dispatch per search and
  // supplier.
  lemma RunKeepsBudgets(hash: Hash, states: seq<System>, events: seq<Event>, i: nat, day: Day)
    requires Run(hash, states, events) && i < |states|
    ensures var s := states[i];
            && DayTotal(s.tables.hits, day, true) == DayTotal(s.tables.hits, day, false) == DispatchesOn(s.log, day)
            && LogWithinLimits(s.log)
            && ClaimsLogged(s.tables.claims, s.log)
  {
    RunIsSafe(hash, states, events);
    BudgetsConserved(hash, states[i], day);
  }

  // A limit that never moves is never exceeded.
  lemma SteadyLimitHolds(hash: Hash, s: System, hit: Hit, limit: int)
    requires Safe(hash, s) && limit >= 0
    requires forall i :: 0 <= i < |s.log| && Counts(s.log[i], hit) ==>
               (if hit.counter.ActorCounter? then UserLimit(s.log[i].control) else s.log[i].limit) == Some(limit)
    ensures HitsOf(s.tables.hits, hit) <= limit
  {
    LastCounted(s.log, hit, limit);
  }

  lemma {:induction false} LastCounted(log: seq<Dispatch>, hit: Hit, limit: int)
    requires LogWithinLimits(log) && limit >= 0
    requires forall i :: 0 <= i < |log| && Counts(log[i], hit) ==>
               (if hit.counter.ActorCounter? then UserLimit(log[i].control) else log[i].limit) == Some(limit)
    ensures CountOf(log, hit) <= limit
  {
    if log != [] {
      var n := |log| - 1;
      assert WithinLimits(log[..n], log[n]);
      forall i | 0 <= i < n ensures WithinLimits(log[..n][..i], log[..n][i]) {
        assert log[..n][..i] == log[..i];
        assert WithinLimits(log[..i], log[i]);
      }
      LastCounted(log[..n], hit, limit);
    }
  }

  // No control or limit went away, and one that changed has a larger version.
  ghost predicate VersionsGrow(was: Tables, now: Tables) {
    && (forall subject :: subject in was.controls ==>
          && subject in now.controls
          && (was.controls[subject] == now.controls[subject] || was.controls[subject].version < now.controls[subject].version))
    && (forall supplier :: supplier in was.limits ==>
          && supplier in now.limits
          && (was.limits[supplier] == now.limits[supplier] || was.limits[supplier].version < now.limits[supplier].version))
  }

  lemma RequestGrowsVersions(tables: Tables, t: Transaction)
    ensures VersionsGrow(tables, Request(tables, t).0)
  {
    hide UserEditValid, SupplierEditValid, Verdict, HitsOf, Bumped, ControlOf, ActorKey;
  }

  lemma StepGrowsVersions(hash: Hash, s: System, event: Event, next: System)
    requires Safe(hash, s) && Step(hash, s, event, next)
    ensures VersionsGrow(s.tables, next.tables)
  {
    if event.Proceed? {
      assert event.p in s.running;
      hide Advance, Safe, Enabled, Request;
      AdvanceRefinesAtomic(hash, s, event.p);
      RequestGrowsVersions(s.tables, s.running[event.p]);
    }
    hide Advance, Safe, Enabled, Request;
  }

  // Along a run nothing goes away and whatever changed has a larger version.
  lemma {:induction false} VersionsOnlyGrow(hash: Hash, states: seq<System>, events: seq<Event>, i: nat, j: nat)
    requires Run(hash, states, events) && i <= j < |states|
    ensures VersionsGrow(states[i].tables, states[j].tables)
    decreases j
  {
    if i < j {
      VersionsOnlyGrow(hash, states, events, i, j - 1);
      RunIsSafe(hash, states, events);
      assert Step(hash, states[j - 1], events[j - 1], states[j - 1 + 1]);
      hide *;
      StepGrowsVersions(hash, states[j - 1], events[j - 1], states[j]);
      GrowthAddsUp(states[i].tables, states[j - 1].tables, states[j].tables);
    }
    hide Run, Safe, Step;
  }

  lemma GrowthAddsUp(a: Tables, b: Tables, c: Tables)
    requires VersionsGrow(a, b) && VersionsGrow(b, c)
    ensures VersionsGrow(a, c)
  {
  }

  // Two saves that started from the same version cannot both succeed, whatever ran between them.
  lemma SecondUserSaveRefused(hash: Hash, states: seq<System>, events: seq<Event>, i: nat, j: nat, expected: int,
                              subject: string, enabled: bool, limit: Option<int>, otherEnabled: bool, otherLimit: Option<int>)
    requires Run(hash, states, events) && i < j < |states|
    requires AtomicUserEdit(states[i].tables, subject, enabled, limit, expected) == (states[i + 1].tables, Saved)
    ensures AtomicUserEdit(states[j].tables, subject, otherEnabled, otherLimit, expected).1 != Saved
  {
    VersionsOnlyGrow(hash, states, events, i + 1, j);
    hide Run, UserEditValid;
    assert subject in states[i + 1].tables.controls;
  }

  lemma SecondSupplierSaveRefused(hash: Hash, states: seq<System>, events: seq<Event>, i: nat, j: nat, expected: int,
                                  supplier: string, limit: Option<int>, otherLimit: Option<int>)
    requires Run(hash, states, events) && i < j < |states|
    requires AtomicSupplierEdit(states[i].tables, supplier, limit, expected) == (states[i + 1].tables, Saved)
    ensures AtomicSupplierEdit(states[j].tables, supplier, otherLimit, expected).1 != Saved
  {
    VersionsOnlyGrow(hash, states, events, i + 1, j);
    hide Run, SupplierEditValid;
    assert supplier in states[i + 1].tables.limits;
  }
}
