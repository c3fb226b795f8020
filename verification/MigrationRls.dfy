/** The Alembic hook that secures new tenant tables: what it does to the two operation lists of a
    migration, and what the rewritten migration does to a schema. */
module MigrationRls {
  import opened Wrappers

  // ---------- operations and their effect ----------

  datatype Policy = Policy(column: string, role: string, setting: string)

  datatype Table = Table(columns: set<string>, enabled: bool, forced: bool, policies: map<string, Policy>)

  type Schema = map<string, Table>

  datatype Sql =
    | EnableRls(table: string)
    | ForceRls(table: string)
    | CreatePolicy(name: string, table: string, policy: Policy)
    | DropPolicyIfExists(name: string, table: string)
    | NoForceRls(table: string)
    | DisableRls(table: string)

  datatype Op =
    | CreateTable(table: string, columns: set<string>)
    | DropTable(table: string)
    | AddColumn(table: string, column: string)
    | DropColumn(table: string, column: string)
    | ExecuteSql(sql: Sql)

  function ExecSql(sql: Sql, s: Schema): Option<Schema> {
    match sql
    case EnableRls(t) => if t in s then Some(s[t := s[t].(enabled := true)]) else None
    case ForceRls(t) => if t in s then Some(s[t := s[t].(forced := true)]) else None
    case NoForceRls(t) => if t in s then Some(s[t := s[t].(forced := false)]) else None
    case DisableRls(t) => if t in s then Some(s[t := s[t].(enabled := false)]) else None
    case CreatePolicy(name, t, policy) =>
      if t in s && name !in s[t].policies && policy.column in s[t].columns then
        Some(s[t := s[t].(policies := s[t].policies[name := policy])])
      else None
    case DropPolicyIfExists(name, t) =>
      if t in s then Some(s[t := s[t].(policies := s[t].policies - {name})]) else Some(s)
  }

  predicate PolicyUses(x: Table, column: string) {
    exists name | name in x.policies :: x.policies[name].column == column
  }

  /** `None` is an operation that the database refuses; it aborts the migration. */
  function Exec(op: Op, s: Schema): Option<Schema> {
    match op
    case CreateTable(t, columns) => if t in s then None else Some(s[t := Table(columns, false, false, map[])])
    case DropTable(t) => if t in s then Some(s - {t}) else None
    case AddColumn(t, c) =>
      if t in s && c !in s[t].columns then Some(s[t := s[t].(columns := s[t].columns + {c})]) else None
    case DropColumn(t, c) =>
      if t in s && c in s[t].columns && !PolicyUses(s[t], c) then
        Some(s[t := s[t].(columns := s[t].columns - {c})])
      else None
    case ExecuteSql(sql) => ExecSql(sql, s)
  }

  function ExecAll(ops: seq<Op>, s: Schema): Option<Schema> {
    if ops == [] then Some(s)
    else
      match Exec(ops[0], s)
      case None => None
      case Some(s') => ExecAll(ops[1..], s')
  }

  lemma {:induction false} ExecAppend(xs: seq<Op>, ys: seq<Op>, s: Schema)
    ensures ExecAll(xs + ys, s) == match ExecAll(xs, s) { case None => None case Some(s') => ExecAll(ys, s') }
  {
    if xs == [] {
      assert xs + ys == ys;
    } else {
      assert (xs + ys)[1..] == xs[1..] + ys;
      match Exec(xs[0], s)
      case None =>
      case Some(s') => ExecAppend(xs[1..], ys, s');
    }
  }

  // ---------- the hook ----------

  const RUNTIME_ROLE := "nexus_runtime"
  const TENANT_SETTING := "app.current_tenant_id"
  const TENANT_COLUMN := "tenant_id"

  function PolicyName(table: string): string { "tenant_isolation_" + table }

  function IsolationPolicy(): Policy { Policy(TENANT_COLUMN, RUNTIME_ROLE, TENANT_SETTING) }

  function RlsUpgradeSql(table: string): seq<Sql> {
    [EnableRls(table), ForceRls(table), CreatePolicy(PolicyName(table), table, IsolationPolicy())]
  }

  function RlsDowngradeSql(table: string): seq<Sql> {
    [DropPolicyIfExists(PolicyName(table), table), NoForceRls(table), DisableRls(table)]
  }

  datatype Column = Column(name: string, rls: bool)

  type MetaData = map<string, seq<Column>>

  predicate IsRlsTable(metadata: MetaData, table: string) {
    table in metadata && exists c | c in metadata[table] :: c.rls
  }

  predicate Marked(metadata: MetaData, op: Op) { op.CreateTable? && IsRlsTable(metadata, op.table) }

  /** The new tenant tables, in the order of their creation. */
  function RlsTables(metadata: MetaData, ops: seq<Op>): seq<string> {
    if ops == [] then []
    else
      RlsTables(metadata, ops[..|ops| - 1])
      + (if Marked(metadata, ops[|ops| - 1]) then [ops[|ops| - 1].table] else [])
  }

  function Executes(sqls: seq<Sql>): (ops: seq<Op>)
    ensures |ops| == |sqls| && forall i | 0 <= i < |ops| :: ops[i] == ExecuteSql(sqls[i])
  {
    seq(|sqls|, i requires 0 <= i < |sqls| => ExecuteSql(sqls[i]))
  }

  /** What is appended to the upgrade: each table secured, in order. */
  function Securing(tables: seq<string>): seq<Op> {
    if tables == [] then []
    else Securing(tables[..|tables| - 1]) + Executes(RlsUpgradeSql(tables[|tables| - 1]))
  }

  /** What is put before the downgrade: each table released, in reverse order. */
  function Releasing(tables: seq<string>): seq<Op> {
    if tables == [] then []
    else Executes(RlsDowngradeSql(tables[|tables| - 1])) + Releasing(tables[..|tables| - 1])
  }

  lemma OneMore(tables: seq<string>, i: nat)
    requires i < |tables|
    ensures Securing(tables[..i + 1]) == Securing(tables[..i]) + Executes(RlsUpgradeSql(tables[i]))
    ensures Releasing(tables[..i + 1]) == Executes(RlsDowngradeSql(tables[i])) + Releasing(tables[..i])
  {
    assert tables[..i + 1][..i] == tables[..i];
  }

  lemma Regroup(a: seq<Op>, b: seq<Op>, c: seq<Op>)
    ensures (a + b) + c == a + (b + c)
  {
  }

  class MigrationScript {
    var upgradeOps: seq<Op>
    var downgradeOps: seq<Op>

    method AppendUpgrade(sqls: seq<Sql>)
      modifies this`upgradeOps
      ensures upgradeOps == old(upgradeOps) + Executes(sqls)
    {
      for i := 0 to |sqls|
        invariant upgradeOps == old(upgradeOps) + Executes(sqls[..i])
      {
        assert Executes(sqls[..i + 1]) == Executes(sqls[..i]) + [ExecuteSql(sqls[i])];
        upgradeOps := upgradeOps + [ExecuteSql(sqls[i])];
      }
      assert sqls[..|sqls|] == sqls;
    }

    /** `for sql in reversed(sqls): ops.insert(0, ...)`. */
    method PrependDowngrade(sqls: seq<Sql>)
      modifies this`downgradeOps
      ensures downgradeOps == Executes(sqls) + old(downgradeOps)
    {
      var i := |sqls|;
      while i > 0
        invariant 0 <= i <= |sqls|
        invariant downgradeOps == Executes(sqls[i..]) + old(downgradeOps)
      {
        i := i - 1;
        assert Executes(sqls[i..]) == [ExecuteSql(sqls[i])] + Executes(sqls[i + 1..]);
        downgradeOps := [ExecuteSql(sqls[i])] + downgradeOps;
      }
      assert sqls[0..] == sqls;
    }

    static method NewRlsTables(metadata: MetaData, ops: seq<Op>) returns (tables: seq<string>)
      ensures tables == RlsTables(metadata, ops)
    {
      tables := [];
      for i := 0 to |ops|
        invariant tables == RlsTables(metadata, ops[..i])
      {
        assert ops[..i + 1][..i] == ops[..i];
        if ops[i].CreateTable? && IsRlsTable(metadata, ops[i].table) {
          tables := tables + [ops[i].table];
        }
      }
      assert ops[..|ops|] == ops;
    }

    method ProcessRevisionDirectives(metadata: MetaData)
      modifies this
      ensures upgradeOps == old(upgradeOps) + Securing(RlsTables(metadata, old(upgradeOps)))
      ensures downgradeOps == Releasing(RlsTables(metadata, old(upgradeOps))) + old(downgradeOps)
    {
      ghost var ops := upgradeOps;
      var tables := NewRlsTables(metadata, upgradeOps);
      for i := 0 to |tables|
        invariant upgradeOps == ops + Securing(tables[..i])
        invariant downgradeOps == Releasing(tables[..i]) + old(downgradeOps)
      {
        OneMore(tables, i);
        Regroup(ops, Securing(tables[..i]), Executes(RlsUpgradeSql(tables[i])));
        Regroup(Executes(RlsDowngradeSql(tables[i])), Releasing(tables[..i]), old(downgradeOps));
        AppendUpgrade(RlsUpgradeSql(tables[i]));
        PrependDowngrade(RlsDowngradeSql(tables[i]));
      }
      assert tables[..|tables|] == tables;
    }
  }

  // ---------- what the inserted statements do ----------

  predicate NoDuplicates(ts: seq<string>) { forall i, j | 0 <= i < j < |ts| :: ts[i] != ts[j] }

  function Secure(t: string, x: Table): Table {
    x.(enabled := true, forced := true, policies := x.policies[PolicyName(t) := IsolationPolicy()])
  }

  /** The schema with these tables secured. */
  function Secured(s: Schema, ts: set<string>): Schema {
    map t | t in s :: if t in ts then Secure(t, s[t]) else s[t]
  }

  /** Row-level security switched off on these tables, everything else as it is. */
  function Unsecured(s: Schema, ts: set<string>): Schema {
    map t | t in s :: if t in ts then s[t].(enabled := false, forced := false) else s[t]
  }

  function ToSet(ts: seq<string>): set<string> { set t | t in ts }

  /** What CREATE POLICY asks of the table: the policy's name is free, and its column is there. The hook
      writes `tenant_id` into every policy, whichever column carries the mark. */
  predicate Securable(s: Schema, t: string) {
    t in s && PolicyName(t) !in s[t].policies && TENANT_COLUMN in s[t].columns
  }

  lemma ExecThree(a: Sql, b: Sql, c: Sql, s: Schema)
    ensures ExecAll(Executes([a, b, c]), s) ==
      match ExecSql(a, s) {
        case None => None
        case Some(s1) =>
          match ExecSql(b, s1) {
            case None => None
            case Some(s2) => ExecSql(c, s2)
          }
      }
  {
    var ops := Executes([a, b, c]);
    assert ops[1..] == [ExecuteSql(b), ExecuteSql(c)];
    assert ops[1..][1..] == [ExecuteSql(c)];
    assert ops[1..][1..][1..] == [];
    assert forall u :: ExecAll([], u) == Some(u);
    assert forall u :: ExecAll([ExecuteSql(c)], u) == ExecSql(c, u);
    match ExecSql(a, s)
    case None =>
    case Some(s1) =>
      assert ExecAll(ops[1..], s1) == match ExecSql(b, s1) { case None => None case Some(s2) => ExecSql(c, s2) };
  }

  lemma SecureOne(s: Schema, t: string)
    ensures ExecAll(Executes(RlsUpgradeSql(t)), s) == if Securable(s, t) then Some(s[t := Secure(t, s[t])]) else None
  {
    ExecThree(EnableRls(t), ForceRls(t), CreatePolicy(PolicyName(t), t, IsolationPolicy()), s);
    if Securable(s, t) {
      var s1 := s[t := s[t].(enabled := true)];
      var s2 := s1[t := s1[t].(forced := true)];
      assert s2[t := s2[t].(policies := s2[t].policies[PolicyName(t) := IsolationPolicy()])] == s[t := Secure(t, s[t])];
    }
  }

  lemma ReleaseOne(s: Schema, t: string)
    requires t in s
    ensures ExecAll(Executes(RlsDowngradeSql(t)), s)
         == Some(s[t := s[t].(enabled := false, forced := false, policies := s[t].policies - {PolicyName(t)})])
  {
    ExecThree(DropPolicyIfExists(PolicyName(t), t), NoForceRls(t), DisableRls(t), s);
    var s1 := s[t := s[t].(policies := s[t].policies - {PolicyName(t)})];
    var s2 := s1[t := s1[t].(forced := false)];
    assert s2[t := s2[t].(enabled := false)]
        == s[t := s[t].(enabled := false, forced := false, policies := s[t].policies - {PolicyName(t)})];
  }

  lemma NoDuplicatesSnoc(ts: seq<string>, t: string)
    ensures NoDuplicates(ts + [t]) <==> NoDuplicates(ts) && t !in ts
  {
    var all := ts + [t];
    if NoDuplicates(all) {
      forall i, j | 0 <= i < j < |ts| ensures ts[i] != ts[j] { assert all[i] != all[j]; }
      forall i | 0 <= i < |ts| ensures ts[i] != t { assert all[i] != all[|ts|]; }
    }
  }

  /** The appended statements go through exactly when every listed table is there, is listed once, has a
      `tenant_id` column and no policy of that name yet; then they secure those tables and touch no other. */
  lemma {:induction false} SecuringRunsIff(s: Schema, ts: seq<string>)
    ensures ExecAll(Securing(ts), s) ==
      if NoDuplicates(ts) && forall t | t in ts :: Securable(s, t) then Some(Secured(s, ToSet(ts))) else None
  {
    if ts == [] {
      assert Secured(s, ToSet(ts)) == s;
    } else {
      var n := |ts| - 1;
      var init, t := ts[..n], ts[n];
      SecuringRunsIff(s, init);
      ExecAppend(Securing(init), Executes(RlsUpgradeSql(t)), s);
      assert forall x :: x in ts <==> x in init || x == t by { assert ts == init + [t]; }
      NoDuplicatesSnoc(init, t);
      assert ts == init + [t];
      if NoDuplicates(init) && forall x | x in init :: Securable(s, x) {
        var s1 := Secured(s, ToSet(init));
        SecureOne(s1, t);
        assert Securable(s1, t) <==> Securable(s, t) && t !in init;
        if Securable(s1, t) {
          assert s1[t := Secure(t, s1[t])] == Secured(s, ToSet(ts));
        }
      }
    }
  }

  function SwitchedOff(x: Table): Table { x.(enabled := false, forced := false) }

  /** Releasing the last table of the list leaves the others secured. */
  lemma PeelOne(s: Schema, ts: set<string>, t: string)
    requires t in s && t !in ts && Securable(s, t)
    ensures var s1, off := Secured(s, ts + {t}), s[t := SwitchedOff(s[t])];
      && t in s1 && SwitchedOff(s1[t]).(policies := s1[t].policies - {PolicyName(t)}) == off[t]
      && s1[t := off[t]] == Secured(off, ts)
      && Unsecured(off, ts) == Unsecured(s, ts + {t})
      && forall x | x in ts && Securable(s, x) :: Securable(off, x)
  {
    assert s[t].policies[PolicyName(t) := IsolationPolicy()] - {PolicyName(t)} == s[t].policies;
  }

  /** After securing, the prepended statements always go through, and take the listed tables back to
      what they were, except that row-level security is then off. */
  lemma {:induction false} ReleasingUndoes(s: Schema, ts: seq<string>)
    requires NoDuplicates(ts) && forall t | t in ts :: Securable(s, t)
    ensures ExecAll(Releasing(ts), Secured(s, ToSet(ts))) == Some(Unsecured(s, ToSet(ts)))
    decreases |ts|
  {
    if ts == [] {
      assert Secured(s, ToSet(ts)) == s == Unsecured(s, ToSet(ts));
    } else {
      var n := |ts| - 1;
      var init, t := ts[..n], ts[n];
      assert ts == init + [t];
      NoDuplicatesSnoc(init, t);
      assert ToSet(ts) == ToSet(init) + {t};
      var s1 := Secured(s, ToSet(ts));
      var off := s[t := SwitchedOff(s[t])];
      PeelOne(s, ToSet(init), t);
      forall x | x in init ensures Securable(off, x) { assert x in ts && x in ToSet(init); }
      ReleaseOne(s1, t);
      ReleasingUndoes(off, init);
      ExecAppend(Executes(RlsDowngradeSql(t)), Releasing(init), s1);
    }
  }

  // ---------- the rewritten migration ----------

  function RewrittenUpgrade(metadata: MetaData, up: seq<Op>): seq<Op> { up + Securing(RlsTables(metadata, up)) }

  function RewrittenDowngrade(metadata: MetaData, up: seq<Op>, down: seq<Op>): seq<Op> {
    Releasing(RlsTables(metadata, up)) + down
  }

  /** Upgrading and then downgrading again leads back. */
  predicate Restores(up: seq<Op>, down: seq<Op>, s: Schema) {
    var s1 := ExecAll(up, s);
    s1.Some? && ExecAll(down, s1.value) == Some(s)
  }

  /** A table as CREATE TABLE makes it, as far as row-level security goes. */
  predicate Plain(x: Table) { !x.enabled && !x.forced && x.policies == map[] }

  /** A script as autogenerate writes it: tables and columns, no raw SQL. */
  predicate Autogenerated(ops: seq<Op>) { forall op | op in ops :: !op.ExecuteSql? }

  ghost predicate Creates(ops: seq<Op>, t: string) {
    exists i :: 0 <= i < |ops| && ops[i].CreateTable? && ops[i].table == t
  }

  /** The hook finds exactly the tables that the upgrade creates and the metadata marks. */
  lemma {:induction false} ListedIff(metadata: MetaData, ops: seq<Op>, t: string)
    ensures t in RlsTables(metadata, ops) <==> Creates(ops, t) && IsRlsTable(metadata, t)
  {
    if ops != [] {
      var n := |ops| - 1;
      ListedIff(metadata, ops[..n], t);
      if Creates(ops[..n], t) {
        var i :| 0 <= i < n && ops[..n][i].CreateTable? && ops[..n][i].table == t;
        assert ops[i].CreateTable? && ops[i].table == t;
      }
      if Creates(ops, t) {
        var i :| 0 <= i <= n && ops[i].CreateTable? && ops[i].table == t;
        if i < n { assert ops[..n][i].CreateTable? && ops[..n][i].table == t; }
      }
    }
  }

  /** Autogenerated operations leave a plain table plain. */
  lemma {:induction false} PlainStaysPlain(ops: seq<Op>, s: Schema, t: string)
    requires Autogenerated(ops) && ExecAll(ops, s).Some? && (t in s ==> Plain(s[t]))
    ensures var s' := ExecAll(ops, s).value; t in s' ==> Plain(s'[t])
  {
    if ops != [] {
      assert ops[0] in ops;
      assert forall op | op in ops[1..] :: op in ops;
      PlainStaysPlain(ops[1..], Exec(ops[0], s).value, t);
    }
  }

  lemma CreatedIsPlain(ops: seq<Op>, s: Schema, i: nat)
    requires Autogenerated(ops) && ExecAll(ops, s).Some? && i < |ops| && ops[i].CreateTable?
    ensures var s' := ExecAll(ops, s).value; ops[i].table in s' ==> Plain(s'[ops[i].table])
  {
    ExecAppend(ops[..i], ops[i..], s);
    assert ops == ops[..i] + ops[i..];
    var s1 := ExecAll(ops[..i], s).value;
    assert ops[i..][0] == ops[i] && ops[i..][1..] == ops[i + 1..];
    assert forall op | op in ops[i + 1..] :: op in ops;
    PlainStaysPlain(ops[i + 1..], Exec(ops[i], s1).value, ops[i].table);
  }

  lemma ListedIsPlain(metadata: MetaData, up: seq<Op>, s: Schema, t: string)
    requires Autogenerated(up) && ExecAll(up, s).Some? && t in RlsTables(metadata, up) && t in ExecAll(up, s).value
    ensures Plain(ExecAll(up, s).value[t])
  {
    ListedIff(metadata, up, t);
    var i :| 0 <= i < |up| && up[i].CreateTable? && up[i].table == t;
    CreatedIsPlain(up, s, i);
  }

  lemma ExecSnoc(ops: seq<Op>, s: Schema)
    requires ops != []
    ensures var n := |ops| - 1;
      ExecAll(ops, s) == match ExecAll(ops[..n], s) { case None => None case Some(s') => Exec(ops[n], s') }
  {
    var n := |ops| - 1;
    assert ops == ops[..n] + [ops[n]];
    ExecAppend(ops[..n], [ops[n]], s);
    assert [ops[n]][1..] == [];
  }

  // ---------- the exact lists ----------

  /** A table is a tenant table if the metadata knows it and any of its columns, wherever it stands, is marked. */
  lemma MarkedIff(metadata: MetaData, t: string)
    ensures IsRlsTable(metadata, t) <==> t in metadata && exists i :: 0 <= i < |metadata[t]| && metadata[t][i].rls
  {
    if t in metadata {
      if i :| 0 <= i < |metadata[t]| && metadata[t][i].rls { assert metadata[t][i] in metadata[t]; }
    }
  }

  /** The hook takes the tables in the order in which the upgrade creates them. */
  lemma {:induction false} TablesInOrder(metadata: MetaData, xs: seq<Op>, ys: seq<Op>)
    ensures RlsTables(metadata, xs + ys) == RlsTables(metadata, xs) + RlsTables(metadata, ys)
  {
    if ys == [] {
      assert xs + ys == xs;
    } else {
      assert (xs + ys)[..|xs + ys| - 1] == xs + ys[..|ys| - 1];
      TablesInOrder(metadata, xs, ys[..|ys| - 1]);
    }
  }

  lemma TablesOfOne(metadata: MetaData, op: Op)
    ensures RlsTables(metadata, [op]) == if op.CreateTable? && IsRlsTable(metadata, op.table) then [op.table] else []
  {
    assert [op][..0] == [];
  }

  /** What the hook appends: three statements a table, in order. */
  lemma {:induction false} SecuringShape(ts: seq<string>, i: nat)
    requires i < |ts|
    ensures |Securing(ts)| == 3 * |ts|
    ensures Securing(ts)[3 * i] == ExecuteSql(EnableRls(ts[i]))
    ensures Securing(ts)[3 * i + 1] == ExecuteSql(ForceRls(ts[i]))
    ensures Securing(ts)[3 * i + 2] == ExecuteSql(CreatePolicy(
              name := "tenant_isolation_" + ts[i], table := ts[i],
              policy := Policy(column := "tenant_id", role := "nexus_runtime", setting := "app.current_tenant_id")))
  {
    var n := |ts| - 1;
    assert |Executes(RlsUpgradeSql(ts[n]))| == 3;
    if n == 0 {
      assert ts[..n] == [];
    } else {
      SecuringShape(ts[..n], if i < n then i else 0);
    }
  }

  /** And what it puts before the downgrade: three statements a table, the last table first. */
  lemma {:induction false} ReleasingShape(ts: seq<string>, i: nat)
    requires i < |ts|
    ensures |Releasing(ts)| == 3 * |ts|
    ensures var t := ts[|ts| - 1 - i];
      && Releasing(ts)[3 * i] == ExecuteSql(DropPolicyIfExists(name := "tenant_isolation_" + t, table := t))
      && Releasing(ts)[3 * i + 1] == ExecuteSql(NoForceRls(t))
      && Releasing(ts)[3 * i + 2] == ExecuteSql(DisableRls(t))
  {
    var n := |ts| - 1;
    assert |Executes(RlsDowngradeSql(ts[n]))| == 3;
    if n == 0 {
      assert ts[..n] == [];
    } else {
      ReleasingShape(ts[..n], if i > 0 then i - 1 else 0);
    }
  }

  // ---------- when the rewritten migration runs ----------

  /** The columns with which the script leaves the table, if it leaves it at all: its last creation and
      what comes after. Read off the operation list alone. */
  function LeftWith(ops: seq<Op>, t: string): Option<set<string>> {
    if ops == [] then None
    else
      var before := LeftWith(ops[..|ops| - 1], t);
      match ops[|ops| - 1]
      case CreateTable(u, columns) => if u == t then Some(columns) else before
      case DropTable(u) => if u == t then None else before
      case AddColumn(u, c) => if u == t && before.Some? then Some(before.value + {c}) else before
      case DropColumn(u, c) => if u == t && before.Some? then Some(before.value - {c}) else before
      case ExecuteSql(_) => before
  }

  /** Each new tenant table is created once, and the upgrade leaves it with a `tenant_id` column. */
  predicate LeavesTenantColumns(metadata: MetaData, up: seq<Op>) {
    var ts := RlsTables(metadata, up);
    NoDuplicates(ts) && forall t | t in ts :: LeftWith(up, t).Some? && TENANT_COLUMN in LeftWith(up, t).value
  }

  /** For a table that the script creates, `LeftWith` is what executing the script leaves. */
  lemma {:induction false} LeftWithIsExact(ops: seq<Op>, s: Schema, t: string)
    requires Autogenerated(ops) && ExecAll(ops, s).Some? && Creates(ops, t)
    ensures var s' := ExecAll(ops, s).value;
      && (t in s' <==> LeftWith(ops, t).Some?)
      && (t in s' ==> s'[t].columns == LeftWith(ops, t).value)
  {
    var n := |ops| - 1;
    ExecSnoc(ops, s);
    assert ops[n] in ops && forall op | op in ops[..n] :: op in ops;
    if Creates(ops[..n], t) { LeftWithIsExact(ops[..n], s, t); }
  }

  /** The rewritten upgrade goes through, wherever the original does, exactly when each new tenant table
      is created once and is left with a `tenant_id` column. */
  lemma RewrittenUpgradeRunsIff(metadata: MetaData, up: seq<Op>, s: Schema)
    requires Autogenerated(up) && ExecAll(up, s).Some?
    ensures ExecAll(RewrittenUpgrade(metadata, up), s) ==
      if LeavesTenantColumns(metadata, up) then
        Some(Secured(ExecAll(up, s).value, ToSet(RlsTables(metadata, up))))
      else None
  {
    var s1, ts := ExecAll(up, s).value, RlsTables(metadata, up);
    ExecAppend(up, Securing(ts), s);
    SecuringRunsIff(s1, ts);
    forall t | t in ts
      ensures Securable(s1, t) <==> LeftWith(up, t).Some? && TENANT_COLUMN in LeftWith(up, t).value
    {
      ListedIff(metadata, up, t);
      LeftWithIsExact(up, s, t);
      if t in s1 { ListedIsPlain(metadata, up, s, t); }
    }
  }

  /** After it, row-level security is enabled and forced on every table that the upgrade creates with a marked
      column, with one policy: the runtime role sees the rows whose `tenant_id` is the current tenant's. All
      other tables are as the original upgrade leaves them. */
  lemma NewTablesSecured(metadata: MetaData, up: seq<Op>, s: Schema, t: string)
    requires Autogenerated(up) && ExecAll(up, s).Some? && ExecAll(RewrittenUpgrade(metadata, up), s).Some?
    ensures var before, after := ExecAll(up, s).value, ExecAll(RewrittenUpgrade(metadata, up), s).value;
      if Creates(up, t) && t in metadata && exists i :: 0 <= i < |metadata[t]| && metadata[t][i].rls then
        && t in before && t in after && after[t].columns == before[t].columns
        && after[t].enabled && after[t].forced
        && after[t].policies == map["tenant_isolation_" + t := Policy(
             column := "tenant_id", role := "nexus_runtime", setting := "app.current_tenant_id")]
      else (t in after <==> t in before) && (t in after ==> after[t] == before[t])
  {
    RewrittenUpgradeRunsIff(metadata, up, s);
    MarkedIff(metadata, t);
    ListedIff(metadata, up, t);
    if t in RlsTables(metadata, up) {
      LeftWithIsExact(up, s, t);
      ListedIsPlain(metadata, up, s, t);
    }
  }

  /** Rewriting keeps the round trip, for every schema the original pair restores, under exactly the same
      condition. */
  lemma RewritingKeepsRoundTripIff(metadata: MetaData, up: seq<Op>, down: seq<Op>, s: Schema)
    requires Autogenerated(up) && Restores(up, down, s)
    ensures Restores(RewrittenUpgrade(metadata, up), RewrittenDowngrade(metadata, up, down), s)
            <==> LeavesTenantColumns(metadata, up)
  {
    var s1, ts := ExecAll(up, s).value, RlsTables(metadata, up);
    RewrittenUpgradeRunsIff(metadata, up, s);
    if LeavesTenantColumns(metadata, up) {
      forall t | t in ts ensures Securable(s1, t) && Plain(s1[t]) {
        ListedIff(metadata, up, t);
        LeftWithIsExact(up, s, t);
        ListedIsPlain(metadata, up, s, t);
      }
      ReleasingUndoes(s1, ts);
      assert Unsecured(s1, ToSet(ts)) == s1;
      ExecAppend(Releasing(ts), down, Secured(s1, ToSet(ts)));
    }
  }

  /** The operation takes away the table, or its `tenant_id` column. */
  predicate TakesAway(op: Op, t: string) { op == DropTable(t) || op == DropColumn(t, TENANT_COLUMN) }

  /** Every new tenant table is created with a `tenant_id` column, and nothing takes it away again. */
  predicate KeepsItsTables(metadata: MetaData, up: seq<Op>) {
    forall i | 0 <= i < |up| && Marked(metadata, up[i]) ::
      TENANT_COLUMN in up[i].columns && forall j | i < j < |up| :: !TakesAway(up[j], up[i].table)
  }

  /** Any such upgrade meets the condition. */
  lemma NothingDroppedSuffices(metadata: MetaData, up: seq<Op>, down: seq<Op>, s: Schema)
    requires Autogenerated(up) && Restores(up, down, s) && KeepsItsTables(metadata, up)
    ensures Restores(RewrittenUpgrade(metadata, up), RewrittenDowngrade(metadata, up, down), s)
  {
    CreatedStay(metadata, up, s);
    RewritingKeepsRoundTripIff(metadata, up, down, s);
  }

  lemma {:induction false} CreatedStay(metadata: MetaData, up: seq<Op>, s: Schema)
    requires Autogenerated(up) && KeepsItsTables(metadata, up) && ExecAll(up, s).Some?
    ensures LeavesTenantColumns(metadata, up)
  {
    if up != [] {
      var n := |up| - 1;
      var init := up[..n];
      ExecSnoc(up, s);
      assert forall op | op in init :: op in up;
      forall i | 0 <= i < n && Marked(metadata, init[i])
        ensures TENANT_COLUMN in init[i].columns && forall j | i < j < n :: !TakesAway(init[j], init[i].table)
      {
        assert Marked(metadata, up[i]);
      }
      CreatedStay(metadata, init, s);
      forall t | t in RlsTables(metadata, init) ensures !TakesAway(up[n], t) && t in ExecAll(init, s).value {
        ListedIff(metadata, init, t);
        var i :| 0 <= i < n && init[i].CreateTable? && init[i].table == t;
        assert Marked(metadata, up[i]);
        LeftWithIsExact(init, s, t);
      }
      LastOperation(metadata, up);
    }
  }

  lemma LastOperation(metadata: MetaData, up: seq<Op>)
    requires up != [] && LeavesTenantColumns(metadata, up[..|up| - 1])
    requires var op := up[|up| - 1];
      && (Marked(metadata, op) ==> TENANT_COLUMN in op.columns && op.table !in RlsTables(metadata, up[..|up| - 1]))
      && forall t | t in RlsTables(metadata, up[..|up| - 1]) :: !TakesAway(op, t) && (op.CreateTable? ==> op.table != t)
    ensures LeavesTenantColumns(metadata, up)
  {
    var n := |up| - 1;
    var before := RlsTables(metadata, up[..n]);
    NoDuplicatesSnoc(before, if up[n].CreateTable? then up[n].table else "");
    forall t | t in before ensures LeftWith(up, t).Some? && TENANT_COLUMN in LeftWith(up, t).value {
      var left := LeftWith(up[..n], t);
      assert left.Some? && TENANT_COLUMN in left.value && !TakesAway(up[n], t);
      match up[n]
      case CreateTable(u, _) =>
      case DropTable(u) =>
      case AddColumn(u, c) =>
      case DropColumn(u, c) =>
      case ExecuteSql(_) =>
    }
  }

  // ---------- and when it does not ----------

  /** A table whose marked column has another name: the original migration restores the empty schema,
      the rewritten one is refused at its CREATE POLICY. */
  lemma OtherTenantColumnBreaks() returns (metadata: MetaData, up: seq<Op>, down: seq<Op>)
    ensures Autogenerated(up) && Restores(up, down, map[])
    ensures ExecAll(RewrittenUpgrade(metadata, up), map[]).None?
  {
    metadata := map["t" := [Column("id", false), Column("org_id", true)]];
    up, down := [CreateTable("t", {"id", "org_id"})], [DropTable("t")];
    var s1: Schema := map["t" := Table({"id", "org_id"}, false, false, map[])];
    RestoresByTwo(up[0], down[0], map[], s1);
    assert IsRlsTable(metadata, "t") by { assert metadata["t"][1].rls && metadata["t"][1] in metadata["t"]; }
    assert RlsTables(metadata, up) == ["t"] by { assert up[..0] == []; }
    assert up[..0] == [] && LeftWith(up, "t") == Some({"id", "org_id"});
    assert "t" in RlsTables(metadata, up);
    RewrittenUpgradeRunsIff(metadata, up, map[]);
  }

  /** A tenant table that the upgrade drops again. */
  lemma DroppedTableBreaks() returns (metadata: MetaData, up: seq<Op>)
    ensures Autogenerated(up) && Restores(up, [], map[])
    ensures ExecAll(RewrittenUpgrade(metadata, up), map[]).None?
  {
    metadata := map["t" := [Column("tenant_id", true)]];
    up := [CreateTable("t", {"tenant_id"}), DropTable("t")];
    var s1: Schema := map["t" := Table({"tenant_id"}, false, false, map[])];
    RestoresByTwo(up[0], up[1], map[], s1);
    assert up[..1] + up[1..] == up && up[..1] == [up[0]] && up[1..] == [up[1]];
    ExecAppend([up[0]], [up[1]], map[]);
    assert IsRlsTable(metadata, "t") by { assert metadata["t"][0].rls && metadata["t"][0] in metadata["t"]; }
    assert RlsTables(metadata, up) == ["t"] by { assert up[..1][..0] == []; }
    assert LeftWith(up, "t") == None;
    assert "t" in RlsTables(metadata, up);
    RewrittenUpgradeRunsIff(metadata, up, map[]);
  }

  lemma RestoresByTwo(a: Op, b: Op, s: Schema, s1: Schema)
    requires Exec(a, s) == Some(s1) && Exec(b, s1) == Some(s)
    ensures ExecAll([a], s) == Some(s1) && ExecAll([b], s1) == Some(s)
  {
    assert [a][1..] == [] && [b][1..] == [];
  }
}
