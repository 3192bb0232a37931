// The registry of connections per address (ircd/IPcheck.c): what every call makes of the entries,
// and what the connection counter therefore says.
module IpRegistry {
  import opened Common

  const STARTTARGETS := 10
  const TARGET_DELAY := 128
  const TABLE_SIZE := 0x10000

  // Largest values of an unsigned short, an unsigned char; one past those of an unsigned int.
  const SHORT_MAX := 0xffff
  const CHAR_MAX := 0xff
  const WORD := 0x1_0000_0000

  type Addr = a: nat | a < 0x1_0000_0000

  // Free targets, and the targets last used from the address.
  datatype Target = Target(count: nat, targets: seq<nat>)

  datatype Entry = Entry(addr: Addr, last: int, connected: nat, attempts: nat, target: Option<Target>)

  type Entries = map<Addr, Entry>

  datatype Config = Config(cloneLimit: int, clonePeriod: int, cloneDelay: int, noThrottle: bool)

  function Hash(ip: Addr): (b: nat)
    ensures b < TABLE_SIZE
  {
    ((ip / 0x10000) as bv16 ^ (ip % 0x10000) as bv16) as nat
  }

  // NOW, and the seconds since a time so kept; the clock has 16 bits, so the result may be negative.
  function Now(clock: nat): nat { clock % 0x10000 }

  function Since(clock: nat, last: int): int { Now(clock) - last }

  // Division as C has it.
  function Quotient(n: int, d: nat): int
    requires d > 0
  {
    if n >= 0 then n / d else -((-n) / d)
  }

  function NewEntry(ip: Addr, clock: nat): Entry {
    Entry(ip, Now(clock), 1, 1, None)
  }

  // Unsigned arithmetic, then the cap.
  function FreeTargets(e: Entry, clock: nat): (n: nat)
    ensures n <= STARTTARGETS
  {
    if e.target == None then STARTTARGETS
    else
      var n := (e.target.value.count + Quotient(Since(clock, e.last), TARGET_DELAY)) % WORD;
      if n > STARTTARGETS then STARTTARGETS else n
  }

  function Updated(e: Entry, clock: nat): Entry {
    if e.target == None then e
    else e.(target := Some(e.target.value.(count := FreeTargets(e, clock))))
  }

  function Saturated(attempts: nat): nat {
    if attempts >= CHAR_MAX then CHAR_MAX else attempts + 1
  }

  function Rested(e: Entry, clock: nat, cfg: Config): nat {
    if Since(clock, e.last) > cfg.clonePeriod then 0 else e.attempts
  }

  // ---------- What the calls do ----------

  // A local connection; the result says whether it is let in.  `uptime` is the time since the start.
  function LocalConnect(r: Entries, ip: Addr, clock: nat, uptime: int, cfg: Config): (Entries, bool) {
    if ip !in r then (r[ip := NewEntry(ip, clock)], true)
    else if r[ip].connected == SHORT_MAX then (r, false)
    else
      var e := r[ip];
      var attempts := Saturated(Rested(e, clock, cfg));
      var f := Updated(e, clock).(last := Now(clock), attempts := attempts);
      if attempts >= cfg.cloneLimit && uptime < cfg.cloneDelay && !cfg.noThrottle then (r[ip := f], false)
      else (r[ip := f.(connected := e.connected + 1)], true)
  }

  // A connection elsewhere in the network.  At the limit the counter wraps to zero and stays there.
  function RemoteConnect(r: Entries, ip: Addr, burst: bool, clock: nat, cfg: Config): (Entries, bool) {
    if ip !in r then (r[ip := NewEntry(ip, clock).(attempts := if burst then 0 else 1)], true)
    else if r[ip].connected == SHORT_MAX then (r[ip := r[ip].(connected := 0)], false)
    else
      var e := r[ip].(connected := r[ip].connected + 1, attempts := Rested(r[ip], clock, cfg));
      (r[ip := if burst then e else Updated(e, clock).(attempts := Saturated(e.attempts), last := Now(clock))], true)
  }

  // A client let in whose registration failed; the counter of attempts has eight bits.
  function ConnectFail(r: Entries, ip: Addr): Entries {
    if ip !in r then r
    else
      var n := (r[ip].attempts - 1) % (CHAR_MAX + 1);
      r[ip := r[ip].(attempts := if n == 0 then 1 else n)]
  }

  function DisconnectIp(r: Entries, ip: Addr): Entries {
    if ip in r && r[ip].connected > 0 then r[ip := r[ip].(connected := r[ip].connected - 1)] else r
  }

  // A client that leaves; a local one leaves its targets, and `free` of them unused.
  function Disconnect(r: Entries, ip: Addr, clock: nat, left: Option<Target>, cfg: Config): Entries
    requires ip in r && r[ip].connected > 0
  {
    var e := r[ip].(connected := r[ip].connected - 1);
    var f := if e.connected > 0 then e
             else Updated(e, clock).(last := Now(clock),
               attempts := if Since(clock, e.last) > cfg.cloneLimit * cfg.clonePeriod then 0 else e.attempts);
    r[ip := LeaveTargets(f, left)]
  }

  function LeaveTargets(e: Entry, left: Option<Target>): Entry {
    match left
    case None => e
    case Some(t) =>
      var had := if e.target == None then STARTTARGETS else e.target.value.count;
      e.(target := Some(Target(if t.count < had then t.count else had, t.targets)))
  }

  // The free targets a local client leaves behind.
  function LeftTargets(clock: nat, nextTarget: nat, firstTime: nat): nat {
    var n := if nextTarget < clock then (clock - nextTarget) / TARGET_DELAY + 1 else 0;
    (n + if clock - firstTime > 600 then (clock - firstTime - 600) / TARGET_DELAY else 0) % WORD
  }

  ghost predicate Dead(e: Entry, clock: nat) {
    e.connected == 0 && Since(clock, e.last) > 600
  }

  function Trimmed(e: Entry, clock: nat): Entry {
    if e.connected == 0 && Since(clock, e.last) > 120 then e.(target := None) else e
  }

  // The entries of `done` have been looked at for expiry.
  ghost function ExpireSome(r: Entries, done: set<Addr>, clock: nat): Entries {
    map a | a in r && !(a in done && Dead(r[a], clock)) :: if a in done then Trimmed(r[a], clock) else r[a]
  }

  ghost function Expire(r: Entries, clock: nat): Entries {
    ExpireSome(r, r.Keys, clock)
  }

  function Count(r: Entries, ip: Addr): nat {
    if ip in r then r[ip].connected else 0
  }

  // ---------- Whole runs ----------

  datatype Op =
    | Local(ip: Addr, clock: nat, uptime: int)
    | Remote(ip: Addr, burst: bool, clock: nat)
    | Fail(ip: Addr)
    | Leave(ip: Addr, clock: nat, left: Option<Target>)
    | LeaveIp(ip: Addr)
    | Timer(clock: nat)

  // Clients leave that were counted before.
  ghost predicate Legal(r: Entries, op: Op) {
    op.Leave? ==> Count(r, op.ip) > 0
  }

  ghost function Do(r: Entries, op: Op, cfg: Config): (Entries, bool)
    requires Legal(r, op)
  {
    match op
    case Local(ip, clock, uptime) => LocalConnect(r, ip, clock, uptime, cfg)
    case Remote(ip, burst, clock) => RemoteConnect(r, ip, burst, clock, cfg)
    case Fail(ip) => (ConnectFail(r, ip), true)
    case Leave(ip, clock, left) => (Disconnect(r, ip, clock, left, cfg), true)
    case LeaveIp(ip) => (DisconnectIp(r, ip), true)
    case Timer(clock) => (Expire(r, clock), true)
  }

  // What an operation adds to the clients connected from `ip`.
  ghost function Gain(r: Entries, op: Op, cfg: Config, ip: Addr): int
    requires Legal(r, op)
  {
    match op
    case Local(a, _, _) => if a == ip && Do(r, op, cfg).1 then 1 else 0
    case Remote(a, _, _) => if a == ip && Do(r, op, cfg).1 then 1 else 0
    case Leave(a, _, _) => if a == ip then -1 else 0
    case LeaveIp(a) => if a == ip && Count(r, a) > 0 then -1 else 0
    case _ => 0
  }

  ghost predicate Small(r: Entries) {
    forall a | a in r :: SmallEntry(a, r[a])
  }

  ghost predicate SmallEntry(a: Addr, e: Entry) {
    && e.addr == a && e.connected <= SHORT_MAX && e.attempts <= CHAR_MAX
    && (e.target != None ==> e.target.value.count <= STARTTARGETS)
  }

  // A call changes the entry of one address.
  lemma PutSmall(r: Entries, q: Entries, ip: Addr)
    requires Small(r) && forall a | a in q && a != ip :: a in r && q[a] == r[a]
    requires ip in q ==> SmallEntry(ip, q[ip])
    ensures Small(q)
  {
  }

  lemma ExpireSmall(r: Entries, done: set<Addr>, clock: nat)
    requires Small(r)
    ensures Small(ExpireSome(r, done, clock))
  {
    hide Since, Now, Dead;
  }

  // Every call keeps the fields in their widths and the free targets at most STARTTARGETS.
  lemma DoKeepsSmall(r: Entries, op: Op, cfg: Config)
    requires Small(r) && Legal(r, op)
    ensures Small(Do(r, op, cfg).0)
  {
    hide FreeTargets, Since, Now, Small, Quotient;
    var q := Do(r, op, cfg).0;
    if op.Timer? {
      ExpireSmall(r, r.Keys, op.clock);
    } else {
      if op.ip in r { SmallAt(r, op.ip); }
      PutSmall(r, q, op.ip);
    }
  }

  lemma SmallAt(r: Entries, a: Addr)
    requires Small(r) && a in r
    ensures SmallEntry(a, r[a])
  {
  }

  // The counter moves with the clients let in and those that leave; refusals and expiry leave it
  // alone.  The one exception is a remote client at the limit of the counter.
  lemma DoCounts(r: Entries, op: Op, cfg: Config, ip: Addr)
    requires Small(r) && Legal(r, op)
    ensures Count(Do(r, op, cfg).0, ip) ==
      if op.Remote? && op.ip == ip && Count(r, ip) == SHORT_MAX then 0 else Count(r, ip) + Gain(r, op, cfg, ip)
  {
  }

  ghost predicate LegalRun(r: Entries, ops: seq<Op>, cfg: Config)
    decreases |ops|
  {
    ops == [] || (Legal(r, ops[0]) && LegalRun(Do(r, ops[0], cfg).0, ops[1..], cfg))
  }

  ghost function Run(r: Entries, ops: seq<Op>, cfg: Config): Entries
    requires LegalRun(r, ops, cfg)
    decreases |ops|
  {
    if ops == [] then r else Run(Do(r, ops[0], cfg).0, ops[1..], cfg)
  }

  // Clients let in from `ip` less those that left, over a run.
  ghost function Balance(r: Entries, ops: seq<Op>, cfg: Config, ip: Addr): int
    requires LegalRun(r, ops, cfg)
    decreases |ops|
  {
    if ops == [] then 0 else Gain(r, ops[0], cfg, ip) + Balance(Do(r, ops[0], cfg).0, ops[1..], cfg, ip)
  }

  // No remote client of `ip` arrives while 65535 are counted.
  ghost predicate BelowLimit(r: Entries, ops: seq<Op>, cfg: Config, ip: Addr)
    requires LegalRun(r, ops, cfg)
    decreases |ops|
  {
    ops == [] || ((ops[0].Remote? && ops[0].ip == ip ==> Count(r, ip) < SHORT_MAX)
                  && BelowLimit(Do(r, ops[0], cfg).0, ops[1..], cfg, ip))
  }

  // The count is the clients let in less those that left, over every run, refusals and expiry
  // included.
  lemma {:induction false} RunCounts(r: Entries, ops: seq<Op>, cfg: Config, ip: Addr)
    requires Small(r) && LegalRun(r, ops, cfg) && BelowLimit(r, ops, cfg, ip)
    ensures Small(Run(r, ops, cfg))
    ensures Count(Run(r, ops, cfg), ip) == Count(r, ip) + Balance(r, ops, cfg, ip)
    decreases |ops|
  {
    if ops != [] {
      DoKeepsSmall(r, ops[0], cfg);
      DoCounts(r, ops[0], cfg, ip);
      RunCounts(Do(r, ops[0], cfg).0, ops[1..], cfg, ip);
    }
  }

  // With 65535 clients counted, one more remote client is turned away and all are forgotten.
  lemma RemoteOverflowForgets(r: Entries, ip: Addr, burst: bool, clock: nat, cfg: Config)
    requires Count(r, ip) == SHORT_MAX
    ensures var (q, accepted) := RemoteConnect(r, ip, burst, clock, cfg); !accepted && Count(q, ip) == 0
  {
  }

  // A local client is turned away exactly when the counter is at its limit, or when it is one of too
  // many in a short time and the server has been up for less than the delay.
  lemma LocalRefusedExactly(r: Entries, ip: Addr, clock: nat, uptime: int, cfg: Config)
    ensures !LocalConnect(r, ip, clock, uptime, cfg).1 <==>
      ip in r && (r[ip].connected == SHORT_MAX
                  || (Saturated(Rested(r[ip], clock, cfg)) >= cfg.cloneLimit && uptime < cfg.cloneDelay && !cfg.noThrottle))
  {
  }

  // How many local clients are turned away over a run, and how many arrive with the counter of their
  // address at its limit.
  ghost function Refused(r: Entries, ops: seq<Op>, cfg: Config): nat
    requires LegalRun(r, ops, cfg)
    decreases |ops|
  {
    if ops == [] then 0
    else (if ops[0].Local? && !Do(r, ops[0], cfg).1 then 1 else 0) + Refused(Do(r, ops[0], cfg).0, ops[1..], cfg)
  }

  ghost function AtLimit(r: Entries, ops: seq<Op>, cfg: Config): nat
    requires LegalRun(r, ops, cfg)
    decreases |ops|
  {
    if ops == [] then 0
    else (if ops[0].Local? && Count(r, ops[0].ip) == SHORT_MAX then 1 else 0) + AtLimit(Do(r, ops[0], cfg).0, ops[1..], cfg)
  }

  // Once the server has been up for the delay, nobody is throttled over any run: the local clients
  // turned away are those that meet a counter at its limit.
  lemma {:induction false} OldServerThrottlesNobody(r: Entries, ops: seq<Op>, cfg: Config)
    requires LegalRun(r, ops, cfg) && forall op | op in ops && op.Local? :: op.uptime >= cfg.cloneDelay
    ensures Refused(r, ops, cfg) == AtLimit(r, ops, cfg)
    decreases |ops|
  {
    if ops != [] {
      assert ops[0] in ops && forall op | op in ops[1..] :: op in ops;
      hide Do, Count;
      LocalStep(r, ops[0], cfg);
      OldServerThrottlesNobody(Do(r, ops[0], cfg).0, ops[1..], cfg);
    }
  }

  lemma LocalStep(r: Entries, op: Op, cfg: Config)
    requires Legal(r, op) && (op.Local? ==> op.uptime >= cfg.cloneDelay)
    ensures op.Local? ==> (!Do(r, op, cfg).1 <==> Count(r, op.ip) == SHORT_MAX)
  {
  }

  // ---------- Who is throttled, by the clock ----------

  // A client that arrives, as part of a burst or on its own.
  datatype Arrival = Arrival(clock: nat, burst: bool)

  function ArrivalOf(op: Op, ip: Addr): seq<Arrival> {
    match op
    case Local(a, clock, _) => if a == ip then [Arrival(clock, false)] else []
    case Remote(a, burst, clock) => if a == ip then [Arrival(clock, burst)] else []
    case _ => []
  }

  function Arrivals(ops: seq<Op>, ip: Addr): seq<Arrival> {
    if ops == [] then [] else ArrivalOf(ops[0], ip) + Arrivals(ops[1..], ip)
  }

  // More than the period between two times, as a clock of 16 bits shows it.
  predicate Pause(from: nat, to: nat, cfg: Config) {
    to % 0x10000 - from % 0x10000 > cfg.clonePeriod
  }

  // When the last client came that was no part of a burst; the first of all sets the time as well.
  function LastTime(a: seq<Arrival>): nat
    requires a != []
  {
    var x, before := a[|a| - 1], a[..|a| - 1];
    if x.burst && before != [] then LastTime(before) else x.clock
  }

  // How many have come in a row, without a pause; those of a burst do not count.
  function InARow(a: seq<Arrival>, cfg: Config): nat {
    if a == [] then 0
    else
      var x, before := a[|a| - 1], a[..|a| - 1];
      (if before == [] || Pause(LastTime(before), x.clock, cfg) then 0 else InARow(before, cfg)) + if x.burst then 0 else 1
  }

  // Nobody from `ip` fails to register, the last one there does not leave, and there is room on the
  // counter for all.
  ghost predicate OnlyArrive(r: Entries, ops: seq<Op>, cfg: Config, ip: Addr)
    requires LegalRun(r, ops, cfg)
    decreases |ops|
  {
    ops == [] || (StaysRoomy(r, ops[0], ip) && OnlyArrive(Do(r, ops[0], cfg).0, ops[1..], cfg, ip))
  }

  ghost predicate StaysRoomy(r: Entries, op: Op, ip: Addr) {
    || op.Timer? || op.ip != ip
    || ((op.Local? || op.Remote?) && Count(r, ip) < SHORT_MAX)
    || ((op.Leave? || op.LeaveIp?) && Count(r, ip) != 1)
  }

  // The entry of an address from which the clients `a` have come.
  ghost predicate Tallied(r: Entries, a: seq<Arrival>, ip: Addr, cfg: Config) {
    if a == [] then ip !in r
    else
      && ip in r && r[ip].connected > 0 && r[ip].last == LastTime(a) % 0x10000
      && r[ip].attempts == if InARow(a, cfg) < CHAR_MAX then InARow(a, cfg) else CHAR_MAX
  }

  lemma RowGrows(a: seq<Arrival>, x: Arrival, cfg: Config)
    ensures InARow(a + [x], cfg) ==
      (if a == [] || Pause(LastTime(a), x.clock, cfg) then 0 else InARow(a, cfg)) + if x.burst then 0 else 1
    ensures LastTime(a + [x]) == if x.burst && a != [] then LastTime(a) else x.clock
  {
    var b := a + [x];
    assert b[|b| - 1] == x && b[..|b| - 1] == a;
  }

  lemma TallyStep(r: Entries, a: seq<Arrival>, op: Op, ip: Addr, cfg: Config)
    requires Legal(r, op) && Tallied(r, a, ip, cfg) && StaysRoomy(r, op, ip)
    ensures Tallied(Do(r, op, cfg).0, a + ArrivalOf(op, ip), ip, cfg)
  {
    hide FreeTargets, LastTime, InARow;
    if ArrivalOf(op, ip) == [] {
      assert a + [] == a;
    } else {
      RowGrows(a, ArrivalOf(op, ip)[0], cfg);
    }
  }

  lemma {:induction false} TallyRun(r: Entries, a: seq<Arrival>, ops: seq<Op>, ip: Addr, cfg: Config)
    requires LegalRun(r, ops, cfg) && Tallied(r, a, ip, cfg) && OnlyArrive(r, ops, cfg, ip)
    ensures Tallied(Run(r, ops, cfg), a + Arrivals(ops, ip), ip, cfg)
    decreases |ops|
  {
    hide Tallied, Do, StaysRoomy;
    if ops == [] {
      assert a + [] == a;
    } else {
      TallyStep(r, a, ops[0], ip, cfg);
      TallyRun(Do(r, ops[0], cfg).0, a + ArrivalOf(ops[0], ip), ops[1..], ip, cfg);
      Assoc(a, ArrivalOf(ops[0], ip), Arrivals(ops[1..], ip));
    }
  }

  // A local client from an address that was new before the run is turned away exactly when others came
  // before, it is one too many in a row, and the server is young and throttles.
  lemma ThrottledByTheClock(r: Entries, ops: seq<Op>, ip: Addr, clock: nat, uptime: int, cfg: Config)
    requires ip !in r && LegalRun(r, ops, cfg) && OnlyArrive(r, ops, cfg, ip) && Count(Run(r, ops, cfg), ip) < SHORT_MAX
    ensures var a := Arrivals(ops, ip); var row := InARow(a + [Arrival(clock, false)], cfg);
      !LocalConnect(Run(r, ops, cfg), ip, clock, uptime, cfg).1 <==>
        && a != [] && (if row < CHAR_MAX then row else CHAR_MAX) >= cfg.cloneLimit
        && uptime < cfg.cloneDelay && !cfg.noThrottle
  {
    hide FreeTargets, LastTime, InARow, LegalRun, Run, OnlyArrive;
    var a := Arrivals(ops, ip);
    TallyRun(r, [], ops, ip, cfg);
    assert [] + a == a;
    RowGrows(a, Arrival(clock, false), cfg);
  }

  // Clients that come on their own, each within the period of the one before.
  ghost predicate Steady(a: seq<Arrival>, cfg: Config) {
    && (forall i :: 0 <= i < |a| ==> !a[i].burst)
    && (forall i :: 0 < i < |a| ==> !Pause(a[i - 1].clock, a[i].clock, cfg))
  }

  // Such clients are all in a row, and after a longer pause the count begins again at 1.
  lemma {:induction false} SteadyRow(a: seq<Arrival>, b: seq<Arrival>, cfg: Config)
    requires Steady(b, cfg) && b != []
    requires a == [] || Pause(LastTime(a), b[0].clock, cfg)
    ensures InARow(a + b, cfg) == |b| && LastTime(a + b) == b[|b| - 1].clock
    decreases |b|
  {
    var front, x := b[..|b| - 1], b[|b| - 1];
    assert a + b == (a + front) + [x];
    RowGrows(a + front, x, cfg);
    hide InARow, LastTime;
    if front == [] {
      assert a + front == a;
    } else {
      SteadyRow(a, front, cfg);
      assert !Pause(b[|b| - 2].clock, b[|b| - 1].clock, cfg);
    }
  }

  // On a young server the clients of a steady stream, the first to come from an address or the first
  // after a pause, are turned away exactly from the one whose number is the limit; but the very first
  // of all never is.
  lemma SteadyStreamThrottled(r: Entries, ops: seq<Op>, ip: Addr, clock: nat, uptime: int, cfg: Config, a: seq<Arrival>, b: seq<Arrival>)
    requires ip !in r && LegalRun(r, ops, cfg) && OnlyArrive(r, ops, cfg, ip) && Count(Run(r, ops, cfg), ip) < SHORT_MAX
    requires Arrivals(ops, ip) + [Arrival(clock, false)] == a + b && b != [] && Steady(b, cfg)
    requires a == [] || Pause(LastTime(a), b[0].clock, cfg)
    requires uptime < cfg.cloneDelay && !cfg.noThrottle && cfg.cloneLimit <= CHAR_MAX
    ensures !LocalConnect(Run(r, ops, cfg), ip, clock, uptime, cfg).1 <==> |b| >= cfg.cloneLimit && (a != [] || |b| > 1)
  {
    hide InARow, LegalRun, Run, OnlyArrive, LocalConnect, LastTime;
    ThrottledByTheClock(r, ops, ip, clock, uptime, cfg);
    SteadyRow(a, b, cfg);
    assert |Arrivals(ops, ip)| + 1 == |a + b|;
  }

  // When the last client of an address leaves and another comes, it counts from the one that left,
  // or not at all if that had stayed for longer than the limit times the period.
  lemma LeaveAndReturn(r: Entries, a: seq<Arrival>, ip: Addr, left: Option<Target>, gone: nat, clock: nat, uptime: int, cfg: Config)
    requires a != [] && Tallied(r, a, ip, cfg) && Count(r, ip) == 1
    ensures var fresh_ := Pause(gone, clock, cfg) || gone % 0x10000 - LastTime(a) % 0x10000 > cfg.cloneLimit * cfg.clonePeriod;
      var row := if fresh_ then 1 else InARow(a, cfg) + 1;
      !LocalConnect(Disconnect(r, ip, gone, left, cfg), ip, clock, uptime, cfg).1 <==>
        && (if row < CHAR_MAX then row else CHAR_MAX) >= cfg.cloneLimit
        && uptime < cfg.cloneDelay && !cfg.noThrottle
  {
    hide FreeTargets, LastTime, InARow;
  }

  // Entries that expire are not missed: the next local client of any address, at that time, is let in or
  // turned away as it would have been, if the period is not longer than entries are kept and a first
  // client is never one too many.
  lemma ExpiryIsNotMissed(r: Entries, ip: Addr, clock: nat, uptime: int, cfg: Config)
    requires cfg.clonePeriod <= 600 && cfg.cloneLimit > 1
    ensures LocalConnect(Expire(r, clock), ip, clock, uptime, cfg).1 == LocalConnect(r, ip, clock, uptime, cfg).1
  {
    hide FreeTargets;
  }

  // A failed registration is meant to undo what the connection did to the attempts.  It does exactly
  // when there were some already, within the period, and fewer than fit in eight bits.
  lemma FailUndoesConnect(r: Entries, ip: Addr, clock: nat, uptime: int, cfg: Config)
    requires Small(r) && ip in r && LocalConnect(r, ip, clock, uptime, cfg).1
    ensures var paused := Now(clock) - r[ip].last > cfg.clonePeriod;
      ConnectFail(LocalConnect(r, ip, clock, uptime, cfg).0, ip)[ip].attempts == (if paused then 0 else r[ip].attempts) <==>
        !paused && 0 < r[ip].attempts < CHAR_MAX
  {
    SmallAt(r, ip);
    hide FreeTargets, Small;
  }

  // With none the counter goes round, and the next client is turned away as if 255 had come before.
  lemma FailAfterBurstGoesRound(ip: Addr)
    ensures var cfg := Config(4, 20, 600, false);
      var ops := [Local(ip, 1000, 10), Remote(ip, true, 1021), Fail(ip), Leave(ip, 1022, None), Leave(ip, 1023, None)];
      LegalRun(map[], ops, cfg) && !LocalConnect(Run(map[], ops, cfg), ip, 1024, 34, cfg).1
  {
    var cfg := Config(4, 20, 600, false);
    var r1 := LocalConnect(map[], ip, 1000, 10, cfg).0;
    var r2 := RemoteConnect(r1, ip, true, 1021, cfg).0;
    var r3 := ConnectFail(r2, ip);
    assert r3[ip].attempts == 255 && r3[ip].connected == 2;
    var r4 := Disconnect(r3, ip, 1022, None, cfg);
    var r5 := Disconnect(r4, ip, 1023, None, cfg);
    var o1, o2, o3, o4, o5 := Local(ip, 1000, 10), Remote(ip, true, 1021), Fail(ip), Leave(ip, 1022, None), Leave(ip, 1023, None);
    hide LocalConnect, RemoteConnect, ConnectFail, Disconnect;
    assert r5 == Do(r4, o5, cfg).0 && r4 == Do(r3, o4, cfg).0 && r3 == Do(r2, o3, cfg).0;
    assert r2 == Do(r1, o2, cfg).0 && r1 == Do(map[], o1, cfg).0;
    hide Do;
    RunFirst(r5, [], cfg);
    RunFirst(r4, [o5], cfg);
    RunFirst(r3, [o4, o5], cfg);
    RunFirst(r2, [o3, o4, o5], cfg);
    RunFirst(r1, [o2, o3, o4, o5], cfg);
    RunFirst(map[], [o1, o2, o3, o4, o5], cfg);
    assert [o1, o2, o3, o4, o5][1..] == [o2, o3, o4, o5] && [o2, o3, o4, o5][1..] == [o3, o4, o5];
    assert [o3, o4, o5][1..] == [o4, o5] && [o4, o5][1..] == [o5] && [o5][1..] == [];
  }

  lemma RunFirst(r: Entries, ops: seq<Op>, cfg: Config)
    ensures ops == [] ==> LegalRun(r, ops, cfg) && Run(r, ops, cfg) == r
    ensures ops != [] && Legal(r, ops[0]) && LegalRun(Do(r, ops[0], cfg).0, ops[1..], cfg) ==>
      LegalRun(r, ops, cfg) && Run(r, ops, cfg) == Run(Do(r, ops[0], cfg).0, ops[1..], cfg)
  {
  }

  // Every TARGET_DELAY seconds of rest give one target back, up to STARTTARGETS.
  lemma TargetsReturn(e: Entry, clock: nat, rest: nat)
    requires e.target != None && e.target.value.count <= STARTTARGETS && e.last == clock % 0x10000 && e.last + rest < 0x10000
    ensures var n := e.target.value.count + rest / TARGET_DELAY;
      FreeTargets(e, clock + rest) == if n < STARTTARGETS then n else STARTTARGETS
  {
    assert (clock + rest) % 0x10000 == e.last + rest;
  }
}
