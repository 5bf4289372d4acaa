/** The curated datasets a report may read: which expressions may be grouped, summed and filtered. */
module ReportRegistry {
  import opened Wrappers

  datatype Agg = Sum | Avg | Count | Min | Max

  datatype Operator = Eq | Ne | Gt | Gte | Lt | Lte | In | Like | Between

  datatype ColumnType = TextType | UuidType | DateType | NumericType | IntType | BoolType

  /** The identifiers a request may name; any other text is `Unknown`. */
  datatype Id = BusinessDate | StationId | Status | GrossRevenue | NetRevenue | TaxTotal | CashTotal
    | MobileMoneyTotal | CardTotal | CreditTotal | CashVariance | DayCount | MarginTotal | CogsTotal
    | ReceivedDate | TankId | ProductId | SupplierRef | VolumeLitres | DipVarianceLitres | DeliveryCount
    | RecordedDate | MovementType | Litres | MovementCount | CreatedDate | AlertType | Severity | RuleCode
    | AlertCount | Score | Amount | InvoiceDate | CustomerId | SourceType | InvoiceCount | OutstandingAmount
    | OpenedDate | Name | ShiftCount | TenderTotal | OccurredDate | Action | EntityType | EventCount
    | Unknown(text: string)

  /** Table columns, within the tables a dataset joins. */
  datatype TableColumn = TenantIdCol | StationIdCol | BusinessDateCol | StatusCol | GrossRevenueCol | NetRevenueCol
    | TaxTotalCol | CashTotalCol | MobileMoneyTotalCol | CardTotalCol | CreditTotalCol | CashVarianceCol
    | MarginTotalCol | CogsTotalCol | ReceivedAtCol | TankIdCol | ProductIdCol | SupplierRefCol
    | VolumeLitresCol | DipVarianceLitresCol | RecordedAtCol | MovementTypeCol | MovedLitresCol | CreatedAtCol
    | AlertTypeCol | SeverityCol | RuleCodeCol | ScoreCol | AmountCol | InvoiceDateCol | CustomerIdCol
    | SourceTypeCol | OutstandingAmountCol | OpenedAtCol | ShiftNameCol | TenderTotalCol | OccurredAtCol
    | ActionNameCol | EntityTypeCol

  /** The shapes of SQL expression the registry uses: a column, cast to text, taken as a UTC date, or
      with a default for NULL. */
  datatype Form = Plain | AsText | UtcDate | UtcDateText | OrBlank | TextOrBlank | OrZero

  datatype Expr = Expr(form: Form, column: TableColumn) | One

  datatype Unit = Shillings | Litre | Tally | Points

  datatype Dimension = Dimension(id: Id, expr: Expr)

  datatype Measure = Measure(id: Id, expr: Expr, aggs: seq<Agg>, decimal: bool, unit: Unit, sensitive: bool)

  datatype Filter = Filter(id: Id, expr: Expr, typ: ColumnType, operators: seq<Operator>)

  /** Without a `station` expression the dataset has no station axis and is for tenant-wide readers only. */
  datatype Dataset = Dataset(key: string, tenant: Expr, station: Option<Expr>,
                             dimensions: seq<Dimension>, measures: seq<Measure>, filters: seq<Filter>)

  /** The columns an expression reads. */
  function Columns(e: Expr): set<TableColumn> {
    if e.One? then {} else {e.column}
  }

  function DimById(dims: seq<Dimension>, id: Id): (d: Option<Dimension>)
    ensures d.Some? ==> d.value in dims && d.value.id == id
    ensures d.None? ==> forall x :: x in dims ==> x.id != id
  {
    if dims == [] then None else if dims[0].id == id then Some(dims[0]) else DimById(dims[1..], id)
  }

  function MeasureById(measures: seq<Measure>, id: Id): (m: Option<Measure>)
    ensures m.Some? ==> m.value in measures && m.value.id == id
    ensures m.None? ==> forall x :: x in measures ==> x.id != id
  {
    if measures == [] then None else if measures[0].id == id then Some(measures[0]) else MeasureById(measures[1..], id)
  }

  function FilterById(filters: seq<Filter>, id: Id): (f: Option<Filter>)
    ensures f.Some? ==> f.value in filters && f.value.id == id
    ensures f.None? ==> forall x :: x in filters ==> x.id != id
  {
    if filters == [] then None else if filters[0].id == id then Some(filters[0]) else FilterById(filters[1..], id)
  }

  predicate Avoids(e: Expr, hidden: set<TableColumn>) {
    e.One? || e.column !in hidden
  }

  predicate MeasureApart(m: Measure, hidden: set<TableColumn>) {
    if m.sensitive then Columns(m.expr) <= hidden else Avoids(m.expr, hidden)
  }

  /** The hidden columns are those of the sensitive measures, and nothing else reads them. */
  predicate SensitiveApart(ds: Dataset, hidden: set<TableColumn>) {
    && Avoids(ds.tenant, hidden) && (ds.station.Some? ==> Avoids(ds.station.value, hidden))
    && (forall d :: d in ds.dimensions ==> Avoids(d.expr, hidden))
    && (forall f :: f in ds.filters ==> Avoids(f.expr, hidden))
    && (forall i :: 0 <= i < |ds.measures| ==> MeasureApart(ds.measures[i], hidden))
  }

  ghost predicate KeptApart(ds: Dataset) {
    exists hidden :: SensitiveApart(ds, hidden)
  }

  // ---- The datasets ----

  const MoneyAggs := [Sum, Avg, Min, Max]
  const CountAggs := [Count, Sum, Avg, Min, Max]

  function RevenueDays(): Dataset {
    Dataset("revenue_days", Expr(Plain, TenantIdCol), Some(Expr(Plain, StationIdCol)),
      [ Dimension(BusinessDate, Expr(AsText, BusinessDateCol)),
        Dimension(StationId, Expr(AsText, StationIdCol)),
        Dimension(Status, Expr(Plain, StatusCol)) ],
      [ Measure(GrossRevenue, Expr(Plain, GrossRevenueCol), MoneyAggs, true, Shillings, false),
        Measure(NetRevenue, Expr(Plain, NetRevenueCol), MoneyAggs, true, Shillings, false),
        Measure(TaxTotal, Expr(Plain, TaxTotalCol), MoneyAggs, true, Shillings, false),
        Measure(CashTotal, Expr(Plain, CashTotalCol), MoneyAggs, true, Shillings, false),
        Measure(MobileMoneyTotal, Expr(Plain, MobileMoneyTotalCol), MoneyAggs, true, Shillings, false),
        Measure(CardTotal, Expr(Plain, CardTotalCol), MoneyAggs, true, Shillings, false),
        Measure(CreditTotal, Expr(Plain, CreditTotalCol), MoneyAggs, true, Shillings, false),
        Measure(CashVariance, Expr(Plain, CashVarianceCol), MoneyAggs, true, Shillings, false),
        Measure(DayCount, One, [Count, Sum], false, Tally, false),
        Measure(MarginTotal, Expr(Plain, MarginTotalCol), MoneyAggs, true, Shillings, true),
        Measure(CogsTotal, Expr(Plain, CogsTotalCol), MoneyAggs, true, Shillings, true) ],
      [ Filter(BusinessDate, Expr(Plain, BusinessDateCol), DateType, [Eq, Gte, Lte, Between]),
        Filter(StationId, Expr(Plain, StationIdCol), UuidType, [Eq, In]),
        Filter(Status, Expr(Plain, StatusCol), TextType, [Eq, Ne]) ])
  }

  function Deliveries(): Dataset {
    Dataset("deliveries", Expr(Plain, TenantIdCol), Some(Expr(Plain, StationIdCol)),
      [ Dimension(ReceivedDate, Expr(UtcDateText, ReceivedAtCol)),
        Dimension(StationId, Expr(AsText, StationIdCol)),
        Dimension(TankId, Expr(AsText, TankIdCol)),
        Dimension(ProductId, Expr(AsText, ProductIdCol)),
        Dimension(SupplierRef, Expr(OrBlank, SupplierRefCol)) ],
      [ Measure(VolumeLitres, Expr(Plain, VolumeLitresCol), MoneyAggs, true, Litre, false),
        Measure(DipVarianceLitres, Expr(OrZero, DipVarianceLitresCol), MoneyAggs, true, Litre, false),
        Measure(DeliveryCount, One, [Count, Sum], false, Tally, false) ],
      [ Filter(ReceivedDate, Expr(UtcDate, ReceivedAtCol), DateType, [Eq, Gte, Lte, Between]),
        Filter(StationId, Expr(Plain, StationIdCol), UuidType, [Eq, In]),
        Filter(TankId, Expr(Plain, TankIdCol), UuidType, [Eq, In]),
        Filter(ProductId, Expr(Plain, ProductIdCol), UuidType, [Eq, In]),
        Filter(SupplierRef, Expr(OrBlank, SupplierRefCol), TextType, [Eq, Like]) ])
  }

  function StockMovements(): Dataset {
    Dataset("stock_movements", Expr(Plain, TenantIdCol), Some(Expr(Plain, StationIdCol)),
      [ Dimension(RecordedDate, Expr(UtcDateText, RecordedAtCol)),
        Dimension(StationId, Expr(AsText, StationIdCol)),
        Dimension(TankId, Expr(AsText, TankIdCol)),
        Dimension(ProductId, Expr(AsText, ProductIdCol)),
        Dimension(MovementType, Expr(Plain, MovementTypeCol)),
        Dimension(Status, Expr(Plain, StatusCol)) ],
      [ Measure(Litres, Expr(Plain, MovedLitresCol), MoneyAggs, true, Litre, false),
        Measure(MovementCount, One, [Count, Sum], false, Tally, false) ],
      [ Filter(RecordedDate, Expr(UtcDate, RecordedAtCol), DateType, [Eq, Gte, Lte, Between]),
        Filter(StationId, Expr(Plain, StationIdCol), UuidType, [Eq, In]),
        Filter(TankId, Expr(Plain, TankIdCol), UuidType, [Eq, In]),
        Filter(MovementType, Expr(Plain, MovementTypeCol), TextType, [Eq, Ne, In]),
        Filter(Status, Expr(Plain, StatusCol), TextType, [Eq, Ne]) ])
  }

  function RiskAlerts(): Dataset {
    Dataset("risk_alerts", Expr(Plain, TenantIdCol), Some(Expr(Plain, StationIdCol)),
      [ Dimension(CreatedDate, Expr(UtcDateText, CreatedAtCol)),
        Dimension(StationId, Expr(TextOrBlank, StationIdCol)),
        Dimension(AlertType, Expr(Plain, AlertTypeCol)),
        Dimension(Severity, Expr(Plain, SeverityCol)),
        Dimension(Status, Expr(Plain, StatusCol)),
        Dimension(RuleCode, Expr(OrBlank, RuleCodeCol)) ],
      [ Measure(AlertCount, One, [Count, Sum], false, Tally, false),
        Measure(Score, Expr(Plain, ScoreCol), CountAggs, false, Points, false),
        Measure(Amount, Expr(OrZero, AmountCol), MoneyAggs, true, Shillings, true) ],
      [ Filter(CreatedDate, Expr(UtcDate, CreatedAtCol), DateType, [Eq, Gte, Lte, Between]),
        Filter(StationId, Expr(Plain, StationIdCol), UuidType, [Eq, In]),
        Filter(AlertType, Expr(Plain, AlertTypeCol), TextType, [Eq, Ne, In]),
        Filter(Severity, Expr(Plain, SeverityCol), TextType, [Eq, Ne, In]),
        Filter(Status, Expr(Plain, StatusCol), TextType, [Eq, Ne, In]) ])
  }

  function Receivables(): Dataset {
    Dataset("receivables", Expr(Plain, TenantIdCol), Some(Expr(Plain, StationIdCol)),
      [ Dimension(InvoiceDate, Expr(AsText, InvoiceDateCol)),
        Dimension(CustomerId, Expr(AsText, CustomerIdCol)),
        Dimension(StationId, Expr(TextOrBlank, StationIdCol)),
        Dimension(Status, Expr(Plain, StatusCol)),
        Dimension(SourceType, Expr(Plain, SourceTypeCol)) ],
      [ Measure(Amount, Expr(Plain, AmountCol), MoneyAggs, true, Shillings, false),
        Measure(InvoiceCount, One, [Count, Sum], false, Tally, false),
        Measure(OutstandingAmount, Expr(Plain, OutstandingAmountCol), MoneyAggs, true, Shillings, true) ],
      [ Filter(InvoiceDate, Expr(Plain, InvoiceDateCol), DateType, [Eq, Gte, Lte, Between]),
        Filter(CustomerId, Expr(Plain, CustomerIdCol), UuidType, [Eq, In]),
        Filter(StationId, Expr(Plain, StationIdCol), UuidType, [Eq, In]),
        Filter(Status, Expr(Plain, StatusCol), TextType, [Eq, Ne, In]) ])
  }

  function Shifts(): Dataset {
    Dataset("shifts", Expr(Plain, TenantIdCol), Some(Expr(Plain, StationIdCol)),
      [ Dimension(OpenedDate, Expr(UtcDateText, OpenedAtCol)),
        Dimension(StationId, Expr(AsText, StationIdCol)),
        Dimension(Status, Expr(Plain, StatusCol)),
        Dimension(Name, Expr(Plain, ShiftNameCol)) ],
      [ Measure(ShiftCount, One, [Count, Sum], false, Tally, false) ],
      [ Filter(OpenedDate, Expr(UtcDate, OpenedAtCol), DateType, [Eq, Gte, Lte, Between]),
        Filter(StationId, Expr(Plain, StationIdCol), UuidType, [Eq, In]),
        Filter(Status, Expr(Plain, StatusCol), TextType, [Eq, Ne, In]) ])
  }

  function CashPosition(): Dataset {
    Dataset("cash_position", Expr(Plain, TenantIdCol), Some(Expr(Plain, StationIdCol)),
      [ Dimension(BusinessDate, Expr(AsText, BusinessDateCol)),
        Dimension(StationId, Expr(AsText, StationIdCol)),
        Dimension(Status, Expr(Plain, StatusCol)) ],
      [ Measure(CashTotal, Expr(Plain, CashTotalCol), MoneyAggs, true, Shillings, false),
        Measure(CashVariance, Expr(Plain, CashVarianceCol), MoneyAggs, true, Shillings, false),
        Measure(TenderTotal, Expr(Plain, TenderTotalCol), MoneyAggs, true, Shillings, false),
        Measure(DayCount, One, [Count, Sum], false, Tally, false) ],
      [ Filter(BusinessDate, Expr(Plain, BusinessDateCol), DateType, [Eq, Gte, Lte, Between]),
        Filter(StationId, Expr(Plain, StationIdCol), UuidType, [Eq, In]),
        Filter(Status, Expr(Plain, StatusCol), TextType, [Eq, Ne]) ])
  }

  function AuditTrail(): Dataset {
    Dataset("audit_logs", Expr(Plain, TenantIdCol), None,
      [ Dimension(OccurredDate, Expr(UtcDateText, OccurredAtCol)),
        Dimension(Action, Expr(Plain, ActionNameCol)),
        Dimension(EntityType, Expr(Plain, EntityTypeCol)) ],
      [ Measure(EventCount, One, [Count, Sum], false, Tally, false) ],
      [ Filter(OccurredDate, Expr(UtcDate, OccurredAtCol), DateType, [Eq, Gte, Lte, Between]),
        Filter(Action, Expr(Plain, ActionNameCol), TextType, [Eq, Ne, Like, In]),
        Filter(EntityType, Expr(Plain, EntityTypeCol), TextType, [Eq, Ne, In]) ])
  }

  function Registry(): seq<Dataset> {
    [RevenueDays(), Deliveries(), StockMovements(), RiskAlerts(), Receivables(), Shifts(), CashPosition(), AuditTrail()]
  }

  // ---- Sensitive columns are kept apart ----

  lemma RevenueDaysMeasures()
    ensures var ms := RevenueDays().measures;
      forall i :: 0 <= i < |ms| ==> MeasureApart(ms[i], {MarginTotalCol, CogsTotalCol})
  {
    var ms, hidden := RevenueDays().measures, {MarginTotalCol, CogsTotalCol};
    assert MeasureApart(ms[0], hidden) && MeasureApart(ms[1], hidden) && MeasureApart(ms[2], hidden);
    assert MeasureApart(ms[3], hidden) && MeasureApart(ms[4], hidden) && MeasureApart(ms[5], hidden);
    assert MeasureApart(ms[6], hidden) && MeasureApart(ms[7], hidden) && MeasureApart(ms[8], hidden);
    assert MeasureApart(ms[9], hidden) && MeasureApart(ms[10], hidden) && |ms| == 11;
  }

  lemma RevenueDaysApart(ds: Dataset)
    requires ds == RevenueDays()
    ensures KeptApart(ds)
  {
    RevenueDaysMeasures();
    assert SensitiveApart(RevenueDays(), {MarginTotalCol, CogsTotalCol});
  }

  lemma RiskAlertsApart(ds: Dataset)
    requires ds == RiskAlerts()
    ensures KeptApart(ds)
  {
    assert SensitiveApart(RiskAlerts(), {AmountCol});
  }

  lemma ReceivablesApart(ds: Dataset)
    requires ds == Receivables()
    ensures KeptApart(ds)
  {
    assert SensitiveApart(Receivables(), {OutstandingAmountCol});
  }

  lemma DeliveriesApart(ds: Dataset)
    requires ds == Deliveries()
    ensures KeptApart(ds)
  {
    assert SensitiveApart(Deliveries(), {});
  }

  lemma StockMovementsApart(ds: Dataset)
    requires ds == StockMovements()
    ensures KeptApart(ds)
  {
    assert SensitiveApart(StockMovements(), {});
  }

  lemma ShiftsApart(ds: Dataset)
    requires ds == Shifts()
    ensures KeptApart(ds)
  {
    assert SensitiveApart(Shifts(), {});
  }

  lemma CashPositionApart(ds: Dataset)
    requires ds == CashPosition()
    ensures KeptApart(ds)
  {
    assert SensitiveApart(CashPosition(), {});
  }

  lemma AuditTrailApart(ds: Dataset)
    requires ds == AuditTrail()
    ensures KeptApart(ds)
  {
    assert SensitiveApart(AuditTrail(), {});
  }

  /** Every dataset of the registry keeps its sensitive columns apart. */
  lemma RegistryApart(ds: Dataset)
    requires ds in Registry()
    ensures KeptApart(ds)
  {
    if ds == RevenueDays() {
      RevenueDaysApart(ds);
    } else if ds == Deliveries() {
      DeliveriesApart(ds);
    } else if ds == StockMovements() {
      StockMovementsApart(ds);
    } else if ds == RiskAlerts() {
      RiskAlertsApart(ds);
    } else if ds == Receivables() {
      ReceivablesApart(ds);
    } else if ds == Shifts() {
      ShiftsApart(ds);
    } else if ds == CashPosition() {
      CashPositionApart(ds);
    } else {
      AuditTrailApart(ds);
    }
  }
}
