/** The rendezvous registry: a table with a time to live and same-address
    eviction, and the function of the registration log it amounts to. */
module Registry {
  import opened Bytes
  import opened Credentials
  import Utf8

  /** Nanoseconds. */
  const TTL: int := 75 * 1_000_000_000

  datatype DeviceEntry = DeviceEntry(
    fingerprint: string, alias: string, deviceModel: string, deviceType: string, protocol: string,
    address: string, port: nat, candidates: seq<string>)

  datatype Registration = Registration(
    fingerprint: string, alias: string, deviceModel: string, deviceType: string, protocol: string,
    port: nat, username: string, candidates: seq<string>)

  type Table = map<string, (DeviceEntry, int)>

  /** What the clock says when a pruning pass comes to an entry. */
  type Readings = string -> int

  function Prune(t: Table, now: Readings): Table
  {
    map fp | fp in t && now(fp) - t[fp].1 < TTL :: t[fp]
  }

  /** Entries another fingerprint left behind at this address. */
  function Stale(t: Table, entry: DeviceEntry): set<string>
  {
    set fp | fp in t && t[fp].0.address == entry.address && fp != entry.fingerprint
  }

  function Enter(t: Table, entry: DeviceEntry, at: int): Table
  {
    (t - Stale(t, entry))[entry.fingerprint := (entry, at)]
  }

  /** A successful call: it prunes, reading the clock for each entry, and a
      registration stamps its entry with a reading of its own. */
  datatype Op =
    | Register(entry: DeviceEntry, prunedAt: Readings, at: int)
    | List(prunedAt: Readings)

  function Apply(t: Table, op: Op): Table
  {
    match op
    case Register(entry, prunedAt, at) => Enter(Prune(t, prunedAt), entry, at)
    case List(prunedAt) => Prune(t, prunedAt)
  }

  function Run(ops: seq<Op>): Table
  {
    if ops == [] then map[] else Apply(Run(ops[..|ops| - 1]), ops[|ops| - 1])
  }

  // --- the function of the log ----------------------------------------------

  predicate Registers(op: Op, fp: string) { op.Register? && op.entry.fingerprint == fp }

  /** The i-th call registered `fp`, and no later call did so again or came from
      the same address under another fingerprint. */
  predicate Current(ops: seq<Op>, fp: string, i: nat)
  {
    && i < |ops| && Registers(ops[i], fp)
    && forall k :: i < k < |ops| && ops[k].Register? ==>
         ops[k].entry.fingerprint != fp && ops[k].entry.address != ops[i].entry.address
  }

  /** Listed at time `now`: current, and under 75 seconds old. */
  predicate Listed(ops: seq<Op>, fp: string, i: nat, now: int)
  {
    Current(ops, fp, i) && now - ops[i].at < 75 * 1_000_000_000
  }

  /** No later call pruned it. */
  predicate Alive(ops: seq<Op>, fp: string, i: nat)
  {
    Current(ops, fp, i) && forall k :: i < k < |ops| ==> ops[k].prunedAt(fp) - ops[i].at < TTL
  }

  lemma AliveExtends(pre: seq<Op>, op: Op, fp: string, i: nat)
    requires i < |pre|
    ensures Alive(pre + [op], fp, i) <==>
            && Alive(pre, fp, i) && op.prunedAt(fp) - pre[i].at < TTL
            && (op.Register? ==> op.entry.fingerprint != fp && op.entry.address != pre[i].entry.address)
  {
    var ops := pre + [op];
    assert ops[|pre|] == op && ops[i] == pre[i];
    assert forall k :: 0 <= k < |pre| ==> ops[k] == pre[k];
  }

  /** The table holds exactly the entries alive by the log, each with its own
      data and time stamp; whatever the clock readings. */
  lemma {:induction false} TableIsAlive(ops: seq<Op>, fp: string) returns (i: nat)
    ensures fp in Run(ops) <==> Alive(ops, fp, i)
    ensures fp in Run(ops) ==> Run(ops)[fp] == (ops[i].entry, ops[i].at)
    ensures forall j :: Alive(ops, fp, j) ==> j == i
    decreases |ops|
  {
    i := 0;
    if ops != [] {
      var n := |ops| - 1;
      var pre, op := ops[..n], ops[n];
      assert ops == pre + [op];
      if Registers(op, fp) {
        i := n;
        forall j | Alive(ops, fp, j) ensures j == i {}
      } else {
        i := TableIsAlive(pre, fp);
        forall j | 0 <= j < n ensures Alive(ops, fp, j) ==> j == i {
          AliveExtends(pre, op, fp, j);
        }
        if i < n {
          AliveExtends(pre, op, fp, i);
        }
      }
    }
  }

  /** Clock readings never go back. */
  ghost predicate Monotone(ops: seq<Op>, now: Readings)
  {
    && (forall i, k, f, g :: 0 <= i < k < |ops| ==> ops[i].prunedAt(f) <= ops[k].prunedAt(g))
    && (forall i, k, g :: 0 <= i < k < |ops| && ops[i].Register? ==> ops[i].at <= ops[k].prunedAt(g))
    && (forall i, f, g :: 0 <= i < |ops| ==> ops[i].prunedAt(f) <= now(g))
    && (forall i, g :: 0 <= i < |ops| && ops[i].Register? ==> ops[i].at <= now(g))
  }

  /** The registry, read at any time: a fingerprint is listed exactly when its
      last registration is under 75 seconds old and no later one came from the
      same address under another fingerprint; and then with that registration's
      data. */
  lemma RegistryIsLog(ops: seq<Op>, fp: string, now: Readings) returns (i: nat)
    requires Monotone(ops, now)
    ensures fp in Prune(Run(ops), now) <==> Listed(ops, fp, i, now(fp))
    ensures fp in Prune(Run(ops), now) ==> Prune(Run(ops), now)[fp] == (ops[i].entry, ops[i].at)
    ensures forall j :: Listed(ops, fp, j, now(fp)) ==> j == i
  {
    i := TableIsAlive(ops, fp);
    forall j: nat | Listed(ops, fp, j, now(fp)) ensures Alive(ops, fp, j) {
      assert forall k :: j < k < |ops| ==> ops[k].prunedAt(fp) <= now(fp);
    }
  }

  /** So no two listed devices share an address, and each is listed under its
      own fingerprint. */
  lemma ListedAddressesDistinct(ops: seq<Op>, now: Readings, a: string, b: string)
    requires Monotone(ops, now)
    requires a in Prune(Run(ops), now) && b in Prune(Run(ops), now)
    ensures Prune(Run(ops), now)[a].0.fingerprint == a
    ensures a != b ==> Prune(Run(ops), now)[a].0.address != Prune(Run(ops), now)[b].0.address
  {
    var i := RegistryIsLog(ops, a, now);
    var j := RegistryIsLog(ops, b, now);
    assert Current(ops, a, i) && Current(ops, b, j);
  }

  // --- the requests ---------------------------------------------------------

  const BEARER := "Bearer "

  function BearerOf(auth: Option<string>): Option<string>
  {
    if auth.Some? && BEARER <= auth.value then Some(auth.value[|BEARER|..]) else None
  }

  function EntryOf(reg: Registration, source: string): DeviceEntry
  {
    DeviceEntry(reg.fingerprint, reg.alias, reg.deviceModel, reg.deviceType, reg.protocol,
                source, reg.port, reg.candidates)
  }

  lemma BearerExactly(auth: Option<string>, password: string)
    ensures BearerOf(auth) == Some(password) <==> auth == Some("Bearer " + password)
  {
    if auth.Some? && "Bearer " <= auth.value {
      assert auth.value == "Bearer " + auth.value[7..];
    }
    assert ("Bearer " + password)[7..] == password;
  }

  lemma NoBearer(auth: Option<string>)
    requires BearerOf(auth) == None
    ensures forall password: string :: auth != Some("Bearer " + password)
  {
    forall password: string ensures auth != Some("Bearer " + password) {
      BearerExactly(auth, password);
    }
  }

  /** The entry says what the device told about itself and the address it was seen
      at; it is listed, as the only one under its fingerprint and the only one at
      that address. */
  ghost predicate Enters(e: DeviceEntry, reg: Registration, source: string, list: set<DeviceEntry>)
  {
    && e.fingerprint == reg.fingerprint && e.alias == reg.alias && e.deviceModel == reg.deviceModel
    && e.deviceType == reg.deviceType && e.protocol == reg.protocol && e.port == reg.port
    && e.candidates == reg.candidates && e.address == source && e in list
    && forall other :: other in list && (other.fingerprint == reg.fingerprint || other.address == source) ==> other == e
  }

  lemma Entered(log: seq<Op>, t: Table, list: set<DeviceEntry>, reg: Registration, source: string)
    requires log != [] && log[|log| - 1].Register? && log[|log| - 1].entry == EntryOf(reg, source)
    requires t == Run(log) && list == set fp | fp in t :: t[fp].0
    ensures Enters(log[|log| - 1].entry, reg, source, list)
  {
    var n := |log| - 1;
    var e := log[n].entry;
    assert t == Apply(Run(log[..n]), log[n]);
    assert t[reg.fingerprint].0 == e;
    forall other | other in list && (other.fingerprint == reg.fingerprint || other.address == source)
      ensures other == e
    {
      var fp :| fp in t && t[fp].0 == other;
      var i := TableIsAlive(log, fp);
      assert other.fingerprint == fp;
    }
  }

  /** The entry of a registration that is still alive. */
  ghost predicate AliveIn(log: seq<Op>, e: DeviceEntry)
  {
    exists fp: string, i: nat :: Alive(log, fp, i) && log[i].entry == e
  }

  ghost predicate FreshIn(log: seq<Op>, now: Readings, e: DeviceEntry)
  {
    exists fp: string, i: nat :: Listed(log, fp, i, now(fp)) && log[i].entry == e
  }

  ghost predicate ListsAlive(list: set<DeviceEntry>, log: seq<Op>) { forall e :: e in list <==> AliveIn(log, e) }

  ghost predicate ListsFresh(list: set<DeviceEntry>, log: seq<Op>, now: Readings)
  {
    forall e :: e in list <==> FreshIn(log, now, e)
  }

  lemma ListedFromLog(log: seq<Op>, t: Table, list: set<DeviceEntry>)
    requires t == Run(log) && list == set fp | fp in t :: t[fp].0
    ensures ListsAlive(list, log)
  {
    hide Run;
    forall e ensures e in list <==> AliveIn(log, e) {
      if e in list {
        var fp :| fp in t && t[fp].0 == e;
        var i := TableIsAlive(log, fp);
        assert Alive(log, fp, i);
      }
      if AliveIn(log, e) {
        var fp: string, i: nat :| Alive(log, fp, i) && log[i].entry == e;
        var j := TableIsAlive(log, fp);
        assert i == j;
      }
    }
  }

  lemma FreshFromLog(log: seq<Op>, now: Readings, t: Table, list: set<DeviceEntry>)
    requires Monotone(log, now) && t == Prune(Run(log), now) && list == set fp | fp in t :: t[fp].0
    ensures ListsFresh(list, log, now)
  {
    hide Run, Prune, Monotone;
    forall e ensures e in list <==> FreshIn(log, now, e) {
      if e in list {
        var fp :| fp in t && t[fp].0 == e;
        var i := RegistryIsLog(log, fp, now);
        assert Listed(log, fp, i, now(fp));
      }
      if FreshIn(log, now, e) {
        var fp: string, i: nat :| Listed(log, fp, i, now(fp)) && log[i].entry == e;
        var j := RegistryIsLog(log, fp, now);
        assert i == j;
      }
    }
  }

  /** The process-wide table. `reg` is the decoded body, if it decodes; `clock`
      is the wall clock in seconds. */
  class Store {
    const c: Crypto
    const secret: string
    var table: Table
    /** The calls that got through to the table. */
    ghost var log: seq<Op>

    constructor (c: Crypto, secret: string)
      ensures this.c == c && this.secret == secret && Valid() && log == []
    {
      this.c, this.secret, table, log := c, secret, map[], [];
    }

    ghost predicate Valid()
      reads this
    {
      table == Run(log)
    }

    /** The pass in front of every access. */
    method Retain(now: Readings)
      modifies this`table
      ensures table == Prune(old(table), now)
    {
      var left := table.Keys;
      while left != {}
        invariant left <= table.Keys <= old(table).Keys
        invariant forall fp :: fp in old(table) ==>
                    (fp in table <==> fp in left || now(fp) - old(table)[fp].1 < TTL)
        invariant forall fp :: fp in table ==> table[fp] == old(table)[fp]
        decreases |left|
      {
        var fp :| fp in left;
        if now(fp) - table[fp].1 >= TTL {
          table := table - {fp};
        }
        left := left - {fp};
      }
    }

    method RemoveStale(entry: DeviceEntry)
      modifies this`table
      ensures table == old(table) - Stale(old(table), entry)
    {
      var left := Stale(table, entry);
      while left != {}
        invariant left <= Stale(old(table), entry)
        invariant table == old(table) - (Stale(old(table), entry) - left)
        decreases |left|
      {
        var fp :| fp in left;
        table := table - {fp};
        left := left - {fp};
      }
    }

    /** The table changes only for a body that decodes and a credential that is
        verified. What is listed is what the log says is alive. */
    method HandleRegister(
      reg: Option<Registration>, auth: Option<string>, source: string, clock: nat, prunedAt: Readings, at: int)
      returns (status: nat, list: set<DeviceEntry>)
      requires Valid()
      modifies this
      ensures Valid() && status in {200, 400, 401}
      ensures status == 400 <==> reg == None
      ensures status == 200 <==>
              && reg.Some?
              && auth == Some("Bearer " + c.base64(c.hmac(Utf8.Encode(secret), Utf8.Encode(reg.value.username))))
              && (ExpiryOf(reg.value.username).Some? ==> clock < ExpiryOf(reg.value.username).value)
      ensures status != 200 ==> log == old(log) && table == old(table) && list == {}
      ensures status == 200 ==>
              && |log| == |old(log)| + 1 && log[|old(log)|].Register?
              && log == old(log) + [Register(log[|old(log)|].entry, prunedAt, at)]
              && Enters(log[|old(log)|].entry, reg.value, source, list) && ListsAlive(list, log)
    {
      list := {};
      if reg == None {
        return 400, list;
      }
      var password := BearerOf(auth);
      if password == None {
        NoBearer(auth);
        return 401, list;
      }
      VerifyExactly(c, secret, reg.value.username, password.value, clock);
      BearerExactly(auth, password.value);
      if !Verify(c, secret, reg.value.username, password.value, clock) {
        return 401, list;
      }
      var entry := EntryOf(reg.value, source);
      Retain(prunedAt);
      RemoveStale(entry);
      table := table[entry.fingerprint := (entry, at)];
      list := set fp | fp in table :: table[fp].0;
      status := 200;
      log := log + [Register(entry, prunedAt, at)];
      assert log[..|log| - 1] == old(log);
      assert Valid();
      Entered(log, table, list, reg.value, source);
      assert Valid();
      ListedFromLog(log, table, list);
    }

    /** With a clock that never goes back, the list is exactly the registrations
        under 75 seconds old that no later one has replaced or evicted. */
    method HandleList(prunedAt: Readings) returns (list: set<DeviceEntry>)
      requires Valid()
      modifies this
      ensures Valid() && log == old(log) + [List(prunedAt)] && ListsAlive(list, log)
      ensures Monotone(old(log), prunedAt) ==> ListsFresh(list, old(log), prunedAt)
    {
      Retain(prunedAt);
      list := set fp | fp in table :: table[fp].0;
      log := log + [List(prunedAt)];
      assert log[..|log| - 1] == old(log);
      assert Valid();
      ListedFromLog(log, table, list);
      if Monotone(old(log), prunedAt) {
        FreshFromLog(old(log), prunedAt, table, list);
      }
    }
  }
}
