/** The datasets that join a movement with its tank: what a reader may not see stays out of the join. */
module ReportJoins {
  import opened ReportCorrectness
  import opened ReportMeaning
  import opened ReportRegistry
  import opened ReportSpec
  import opened ReportCompiler
  import opened Wrappers

  datatype Tank = Tank(tenant: nat, id: nat, station: nat, product: nat)

  /** `ON tk.id = m.tank_id AND tk.tenant_id = m.tenant_id`. */
  predicate Joins(m: Row, t: Tank) {
    && TenantIdCol in m && m[TenantIdCol] == Uuid(t.tenant)
    && TankIdCol in m && m[TankIdCol] == Uuid(t.id)
  }

  /** The station and the product come from the tank. */
  function Combined(m: Row, t: Tank): Row {
    m[StationIdCol := Uuid(t.station)][ProductIdCol := Uuid(t.product)]
  }

  function JoinOne(m: Row, tanks: seq<Tank>): seq<Row> {
    if tanks == [] then []
    else
      var last := tanks[|tanks| - 1];
      JoinOne(m, tanks[..|tanks| - 1]) + if Joins(m, last) then [Combined(m, last)] else []
  }

  function Join(main: seq<Row>, tanks: seq<Tank>): seq<Row> {
    if main == [] then [] else Join(main[..|main| - 1], tanks) + JoinOne(main[|main| - 1], tanks)
  }

  // ---- The part of a join that matters ----

  function Select(tanks: seq<Tank>, granted: Tank -> bool): (out: seq<Tank>)
    ensures forall t :: t in out <==> t in tanks && granted(t)
  {
    if tanks == [] then []
    else
      var last := tanks[|tanks| - 1];
      Select(tanks[..|tanks| - 1], granted) + if granted(last) then [last] else []
  }

  /** The movement is on one of the tanks. */
  predicate On(m: Row, tanks: seq<Tank>) {
    exists i :: 0 <= i < |tanks| && Joins(m, tanks[i])
  }

  function OnAny(tanks: seq<Tank>): Row -> bool {
    (m: Row) => On(m, tanks)
  }

  /** Only granted tanks make rows that pass. */
  ghost predicate PassesOnlyGranted(p: Row -> bool, granted: Tank -> bool) {
    forall m, t :: Joins(m, t) && p(Combined(m, t)) ==> granted(t)
  }

  lemma KeepSnoc(rows: seq<Row>, r: Row, p: Row -> bool)
    ensures Keep(rows + [r], p) == Keep(rows, p) + if p(r) then [r] else []
  {
    assert (rows + [r])[..|rows|] == rows;
  }

  lemma {:induction false} KeepAppend(a: seq<Row>, b: seq<Row>, p: Row -> bool)
    ensures Keep(a + b, p) == Keep(a, p) + Keep(b, p)
  {
    if b == [] {
      assert a + b == a;
    } else {
      var before, last := b[..|b| - 1], b[|b| - 1];
      KeepAppend(a, before, p);
      KeepSnoc(a + before, last, p);
      KeepSnoc(before, last, p);
      AppendLast(a, before, last, b);
    }
  }

  lemma AppendLast(a: seq<Row>, before: seq<Row>, last: Row, b: seq<Row>)
    requires b == before + [last]
    ensures a + b == (a + before) + [last]
  {
  }

  lemma JoinOneSnoc(m: Row, tanks: seq<Tank>, t: Tank)
    ensures JoinOne(m, tanks + [t]) == JoinOne(m, tanks) + if Joins(m, t) then [Combined(m, t)] else []
  {
    assert (tanks + [t])[..|tanks|] == tanks;
  }

  lemma JoinSnoc(main: seq<Row>, m: Row, tanks: seq<Tank>)
    ensures Join(main + [m], tanks) == Join(main, tanks) + JoinOne(m, tanks)
  {
    assert (main + [m])[..|main|] == main;
  }

  lemma OneMoreTank(m: Row, tanks: seq<Tank>, t: Tank, p: Row -> bool)
    ensures Keep(JoinOne(m, tanks + [t]), p)
         == Keep(JoinOne(m, tanks), p) + if Joins(m, t) && p(Combined(m, t)) then [Combined(m, t)] else []
  {
    JoinOneSnoc(m, tanks, t);
    if Joins(m, t) {
      KeepSnoc(JoinOne(m, tanks), Combined(m, t), p);
    } else {
      assert JoinOne(m, tanks + [t]) == JoinOne(m, tanks);
    }
  }

  lemma {:induction false} GrantedTanksOnly(m: Row, tanks: seq<Tank>, p: Row -> bool, granted: Tank -> bool)
    requires PassesOnlyGranted(p, granted)
    ensures Keep(JoinOne(m, tanks), p) == Keep(JoinOne(m, Select(tanks, granted)), p)
  {
    if tanks != [] {
      var before, last := tanks[..|tanks| - 1], tanks[|tanks| - 1];
      GrantedTanksOnly(m, before, p, granted);
      assert tanks == before + [last];
      OneMoreTank(m, before, last, p);
      if granted(last) {
        OneMoreTank(m, Select(before, granted), last, p);
      } else {
        assert Select(tanks, granted) == Select(before, granted);
      }
    }
  }

  lemma {:induction false} NotOnAny(m: Row, tanks: seq<Tank>)
    requires !On(m, tanks)
    ensures JoinOne(m, tanks) == []
  {
    if tanks != [] {
      var before := tanks[..|tanks| - 1];
      assert !On(m, before) by {
        assert forall i :: 0 <= i < |before| ==> before[i] == tanks[i];
      }
      NotOnAny(m, before);
    }
  }

  /** Of a join only movements on granted tanks, joined with those, can pass. */
  lemma {:induction false} JoinOfGranted(main: seq<Row>, tanks: seq<Tank>, p: Row -> bool, granted: Tank -> bool)
    requires PassesOnlyGranted(p, granted)
    ensures var own := Select(tanks, granted); Keep(Join(main, tanks), p) == Keep(Join(Keep(main, OnAny(own)), own), p)
  {
    if main != [] {
      var before, m, own := main[..|main| - 1], main[|main| - 1], Select(tanks, granted);
      JoinOfGranted(before, tanks, p, granted);
      KeepAppend(Join(before, tanks), JoinOne(m, tanks), p);
      GrantedTanksOnly(m, tanks, p, granted);
      if On(m, own) {
        JoinSnoc(Keep(before, OnAny(own)), m, own);
        KeepAppend(Join(Keep(before, OnAny(own)), own), JoinOne(m, own), p);
      } else {
        NotOnAny(m, own);
      }
    }
  }

  // ---- The report ----

  predicate Has(r: Row, c: TableColumn, id: nat) {
    c in r && r[c] == Uuid(id)
  }

  /** Tenant and station are read as they are. */
  ghost predicate ReadsKeys(db: Db) {
    forall c, r, id :: c in {TenantIdCol, StationIdCol} ==>
      (db.scalar(Expr(Plain, c), r) == Uuid(id) <==> Has(r, c, id))
  }

  /** The station axis comes from the tank, as in the two joined datasets. */
  predicate OverTanks(ds: Dataset) {
    ds.tenant == Expr(Plain, TenantIdCol) && ds.station == Some(Expr(Plain, StationIdCol))
  }

  lemma JoinedDatasets()
    ensures OverTanks(Deliveries()) && OverTanks(StockMovements())
  {
  }

  /** A tank of the reader's tenant and, for a reader without the whole tenant, of a station granted to them. */
  function Granted(scope: Scope): Tank -> bool {
    (t: Tank) => t.tenant == scope.tenant && (scope.tenantWide || t.station in scope.stations)
  }

  lemma ReadKey(db: Db, c: TableColumn, r: Row, id: nat)
    requires ReadsKeys(db) && c in {TenantIdCol, StationIdCol}
    ensures Eval(db, Expr(Plain, c), r) == Uuid(id) <==> Has(r, c, id)
  {
    var only := Restrict(r, {c});
    assert Has(only, c, id) <==> Has(r, c, id);
    assert Columns(Expr(Plain, c)) == {c};
    assert db.scalar(Expr(Plain, c), only) == Uuid(id) <==> Has(only, c, id);
  }

  lemma ScopeIsGranted(db: Db, rep: Report, m: Row, t: Tank)
    requires ReadsKeys(db) && OverTanks(rep.ds) && Joins(m, t) && Within(db, rep)(Combined(m, t))
    ensures Granted(rep.scope)(t)
  {
    var r := Combined(m, t);
    ReadKey(db, TenantIdCol, r, rep.scope.tenant);
    ReadKey(db, StationIdCol, r, t.station);
  }

  /** What a joined report may return does not depend on tanks of other tenants or of stations the reader has no grant
      for, nor on movements on such tanks. */
  lemma JoinIgnoresUngranted(db: Db, rep: Report, main1: seq<Row>, tanks1: seq<Tank>, main2: seq<Row>,
                             tanks2: seq<Tank>, result: seq<seq<Value>>)
    requires ReadsKeys(db) && OverTanks(rep.ds) && ValidSpec(rep.ds, rep.spec)
    requires Select(tanks1, Granted(rep.scope)) == Select(tanks2, Granted(rep.scope))
    requires var own := Select(tanks1, Granted(rep.scope)); Keep(main1, OnAny(own)) == Keep(main2, OnAny(own))
    ensures IsResult(db, TheQuery(rep), TheArgs(rep), Join(main1, tanks1), result)
       <==> IsResult(db, TheQuery(rep), TheArgs(rep), Join(main2, tanks2), result)
  {
    var p, granted := Within(db, rep), Granted(rep.scope);
    forall m, t | Joins(m, t) && p(Combined(m, t)) ensures granted(t) {
      ScopeIsGranted(db, rep, m, t);
    }
    JoinOfGranted(main1, tanks1, p, granted);
    JoinOfGranted(main2, tanks2, p, granted);
    QueryIgnoresOtherRows(db, rep, Join(main1, tanks1), Join(main2, tanks2), result);
  }

  function OfTenant(tenant: nat): Row -> bool {
    (m: Row) => Has(m, TenantIdCol, tenant)
  }

  /** In particular not on movements of other tenants. */
  lemma JoinIgnoresOtherTenants(db: Db, rep: Report, main1: seq<Row>, tanks1: seq<Tank>, main2: seq<Row>,
                                tanks2: seq<Tank>, result: seq<seq<Value>>)
    requires ReadsKeys(db) && OverTanks(rep.ds) && ValidSpec(rep.ds, rep.spec)
    requires Keep(main1, OfTenant(rep.scope.tenant)) == Keep(main2, OfTenant(rep.scope.tenant))
    requires Select(tanks1, Granted(rep.scope)) == Select(tanks2, Granted(rep.scope))
    ensures IsResult(db, TheQuery(rep), TheArgs(rep), Join(main1, tanks1), result)
       <==> IsResult(db, TheQuery(rep), TheArgs(rep), Join(main2, tanks2), result)
  {
    var own := Select(tanks1, Granted(rep.scope));
    forall m | On(m, own) ensures Has(m, TenantIdCol, rep.scope.tenant) {
      var i :| 0 <= i < |own| && Joins(m, own[i]);
      assert own[i] in own;
    }
    KeepTwice(main1, OfTenant(rep.scope.tenant), OnAny(own));
    KeepTwice(main2, OfTenant(rep.scope.tenant), OnAny(own));
    JoinIgnoresUngranted(db, rep, main1, tanks1, main2, tanks2, result);
  }
}
