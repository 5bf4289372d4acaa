/** The gate in front of the compiler: a specification may only name what its dataset offers. */
module ReportSpec {
  import opened ReportRegistry
  import opened ReportCompiler
  import opened Wrappers

  const MAX_DIMENSIONS := 4
  const MAX_MEASURES := 8
  const MAX_FILTERS := 12
  const MAX_LIST := 200

  datatype SpecError =
    | UnknownDataset | EmptySpec | TooManyDimensions | TooManyMeasures | TooManyFilters
    | DuplicateDimension | UnknownDimension | UnknownMeasure | AggNotAllowed
    | UnknownFilter | OperatorNotAllowed | FilterValue | UnknownSort | InvalidLimit

  datatype Validated = Valid(ds: Dataset) | Invalid(error: SpecError)

  function ByKey(datasets: seq<Dataset>, key: string): (d: Option<Dataset>)
    ensures d.Some? ==> d.value in datasets && d.value.key == key
    ensures d.None? ==> forall x :: x in datasets ==> x.key != key
  {
    if datasets == [] then None else if datasets[0].key == key then Some(datasets[0]) else ByKey(datasets[1..], key)
  }

  // ---- What a valid specification is ----

  predicate Distinct(ids: seq<Id>) {
    forall i, j :: 0 <= i < j < |ids| ==> ids[i] != ids[j]
  }

  predicate DimensionOk(ds: Dataset, id: Id) {
    DimById(ds.dimensions, id).Some?
  }

  predicate MeasureOk(ds: Dataset, sm: SpecMeasure) {
    var m := MeasureById(ds.measures, sm.measure);
    m.Some? && sm.agg in m.value.aggs
  }

  predicate ValueOk(sf: SpecFilter) {
    match sf.operator
    case In => 0 < |sf.values| <= MAX_LIST
    case Between => |sf.values| == 2
    case _ => !sf.value.JNull?
  }

  predicate FilterOk(ds: Dataset, sf: SpecFilter) {
    var f := FilterById(ds.filters, sf.filter);
    f.Some? && sf.operator in f.value.operators && ValueOk(sf)
  }

  predicate SortOk(spec: Spec, s: SpecSort) {
    s.key in spec.dimensions || exists sm :: sm in spec.measures && sm.measure == s.key
  }

  predicate ValidSpec(ds: Dataset, spec: Spec) {
    && 0 < |spec.dimensions| + |spec.measures|
    && |spec.dimensions| <= MAX_DIMENSIONS && |spec.measures| <= MAX_MEASURES && |spec.filters| <= MAX_FILTERS
    && Distinct(spec.dimensions)
    && (forall i :: 0 <= i < |spec.dimensions| ==> DimensionOk(ds, spec.dimensions[i]))
    && (forall i :: 0 <= i < |spec.measures| ==> MeasureOk(ds, spec.measures[i]))
    && (forall i :: 0 <= i < |spec.filters| ==> FilterOk(ds, spec.filters[i]))
    && (forall i :: 0 <= i < |spec.sort| ==> SortOk(spec, spec.sort[i]))
    && 0 <= spec.limit <= MAX_LIMIT
  }

  /** What each code claims about the rejected specification. */
  predicate Defect(ds: Dataset, spec: Spec, error: SpecError) {
    match error
    case UnknownDataset => false
    case EmptySpec => |spec.dimensions| + |spec.measures| == 0
    case TooManyDimensions => |spec.dimensions| > MAX_DIMENSIONS
    case TooManyMeasures => |spec.measures| > MAX_MEASURES
    case TooManyFilters => |spec.filters| > MAX_FILTERS
    case DuplicateDimension => !Distinct(spec.dimensions)
    case UnknownDimension => exists i :: 0 <= i < |spec.dimensions| && !DimensionOk(ds, spec.dimensions[i])
    case UnknownMeasure =>
      exists i :: 0 <= i < |spec.measures| && MeasureById(ds.measures, spec.measures[i].measure).None?
    case AggNotAllowed => exists i :: 0 <= i < |spec.measures| && !MeasureOk(ds, spec.measures[i])
    case UnknownFilter => exists i :: 0 <= i < |spec.filters| && FilterById(ds.filters, spec.filters[i].filter).None?
    case OperatorNotAllowed => exists i :: 0 <= i < |spec.filters| && !FilterOk(ds, spec.filters[i])
    case FilterValue => exists i :: 0 <= i < |spec.filters| && !ValueOk(spec.filters[i])
    case UnknownSort => exists i :: 0 <= i < |spec.sort| && !SortOk(spec, spec.sort[i])
    case InvalidLimit => !(0 <= spec.limit <= MAX_LIMIT)
  }

  /** One to two hundred values for `in`, both ends for `between`, and a value for everything else. */
  predicate ShapeOk(sf: SpecFilter) {
    if sf.operator == In then 1 <= |sf.values| <= 200
    else if sf.operator == Between then |sf.values| == 2 else sf.value != JNull
  }

  /** A specification is accepted if and only if it selects something, up to four dimensions, no two alike, and eight
      measures, with up to twelve filters of the right shape and a limit up to a thousand, and each dimension, measure,
      aggregate, filter, operator and sort is one the dataset or the selection offers. */
  lemma AcceptedIff(ds: Dataset, spec: Spec)
    ensures ValidSpec(ds, spec) <==>
      && (spec.dimensions != [] || spec.measures != [])
      && |spec.dimensions| <= 4 && |spec.measures| <= 8 && |spec.filters| <= 12 && 0 <= spec.limit <= 1000
      && (forall i, j :: 0 <= i < j < |spec.dimensions| ==> spec.dimensions[i] != spec.dimensions[j])
      && (forall id :: id in spec.dimensions ==> DimById(ds.dimensions, id).Some?)
      && (forall sm :: sm in spec.measures ==>
            var m := MeasureById(ds.measures, sm.measure); m.Some? && sm.agg in m.value.aggs)
      && (forall sf :: sf in spec.filters ==>
            var f := FilterById(ds.filters, sf.filter); f.Some? && sf.operator in f.value.operators && ShapeOk(sf))
      && (forall s :: s in spec.sort ==>
            s.key in spec.dimensions || exists sm :: sm in spec.measures && sm.measure == s.key)
  {
    assert forall sf :: ShapeOk(sf) <==> ValueOk(sf);
    assert (forall i :: 0 <= i < |spec.dimensions| ==> DimensionOk(ds, spec.dimensions[i]))
      <==> forall id :: id in spec.dimensions ==> DimensionOk(ds, id);
    assert (forall i :: 0 <= i < |spec.measures| ==> MeasureOk(ds, spec.measures[i]))
      <==> forall sm :: sm in spec.measures ==> MeasureOk(ds, sm);
    assert (forall i :: 0 <= i < |spec.filters| ==> FilterOk(ds, spec.filters[i]))
      <==> forall sf :: sf in spec.filters ==> FilterOk(ds, sf);
    assert (forall i :: 0 <= i < |spec.sort| ==> SortOk(spec, spec.sort[i]))
      <==> forall s :: s in spec.sort ==> SortOk(spec, s);
  }

  // ---- The checks in their order ----

  method CheckDimensions(ds: Dataset, spec: Spec) returns (error: Option<SpecError>, seen: set<Id>)
    ensures error.None? <==>
      Distinct(spec.dimensions) && forall i :: 0 <= i < |spec.dimensions| ==> DimensionOk(ds, spec.dimensions[i])
    ensures error.None? ==> forall id :: id in seen <==> id in spec.dimensions
    ensures error.Some? ==> Defect(ds, spec, error.value)
  {
    var dims := spec.dimensions;
    seen := {};
    for i := 0 to |dims|
      invariant Distinct(dims[..i]) && forall j :: 0 <= j < i ==> DimensionOk(ds, dims[j])
      invariant forall id :: id in seen <==> id in dims[..i]
    {
      if dims[i] in seen {
        var j :| 0 <= j < i && dims[..i][j] == dims[i];
        assert dims[j] == dims[i];
        return Some(DuplicateDimension), seen;
      }
      seen := seen + {dims[i]};
      if DimById(ds.dimensions, dims[i]).None? {
        assert !DimensionOk(ds, dims[i]);
        return Some(UnknownDimension), seen;
      }
      assert dims[..i + 1] == dims[..i] + [dims[i]];
    }
    assert dims[..|dims|] == dims;
    error := None;
  }

  method CheckMeasures(ds: Dataset, spec: Spec) returns (error: Option<SpecError>)
    ensures error.None? <==> forall i :: 0 <= i < |spec.measures| ==> MeasureOk(ds, spec.measures[i])
    ensures error.Some? ==> Defect(ds, spec, error.value)
  {
    var ms := spec.measures;
    for i := 0 to |ms|
      invariant forall j :: 0 <= j < i ==> MeasureOk(ds, ms[j])
    {
      var m := MeasureById(ds.measures, ms[i].measure);
      if m.None? {
        assert !MeasureOk(ds, ms[i]);
        return Some(UnknownMeasure);
      }
      if ms[i].agg !in m.value.aggs {
        assert !MeasureOk(ds, ms[i]);
        return Some(AggNotAllowed);
      }
    }
    error := None;
  }

  method CheckFilters(ds: Dataset, spec: Spec) returns (error: Option<SpecError>)
    ensures error.None? <==> forall i :: 0 <= i < |spec.filters| ==> FilterOk(ds, spec.filters[i])
    ensures error.Some? ==> Defect(ds, spec, error.value)
  {
    var filters := spec.filters;
    for i := 0 to |filters|
      invariant forall j :: 0 <= j < i ==> FilterOk(ds, filters[j])
    {
      var f := FilterById(ds.filters, filters[i].filter);
      if f.None? {
        assert !FilterOk(ds, filters[i]);
        return Some(UnknownFilter);
      }
      if filters[i].operator !in f.value.operators {
        assert !FilterOk(ds, filters[i]);
        return Some(OperatorNotAllowed);
      }
      if !ValueOk(filters[i]) {
        assert !FilterOk(ds, filters[i]);
        return Some(FilterValue);
      }
    }
    error := None;
  }

  method CheckSorts(spec: Spec, seen: set<Id>) returns (error: Option<SpecError>)
    requires forall id :: id in seen <==> id in spec.dimensions
    ensures error.None? <==> forall i :: 0 <= i < |spec.sort| ==> SortOk(spec, spec.sort[i])
    ensures error.Some? ==> error.value.UnknownSort?
  {
    for i := 0 to |spec.sort|
      invariant forall j :: 0 <= j < i ==> SortOk(spec, spec.sort[j])
    {
      var found := false;
      for k := 0 to |spec.measures|
        invariant found <==> exists j :: 0 <= j < k && spec.measures[j].measure == spec.sort[i].key
      {
        if spec.measures[k].measure == spec.sort[i].key {
          found := true;
        }
      }
      if spec.sort[i].key !in seen && !found {
        assert !SortOk(spec, spec.sort[i]);
        return Some(UnknownSort);
      }
    }
    error := None;
  }

  /** Accepts exactly the valid specifications of a registered dataset. */
  method Validate(key: string, spec: Spec) returns (r: Validated)
    ensures r.Valid? <==> ByKey(Registry(), key).Some? && ValidSpec(ByKey(Registry(), key).value, spec)
    ensures r.Valid? ==> r.ds in Registry() && r.ds.key == key && ValidSpec(r.ds, spec)
    ensures r.Invalid? ==>
      var found := ByKey(Registry(), key);
      if found.None? then r.error == UnknownDataset else Defect(found.value, spec, r.error)
  {
    var found := ByKey(Registry(), key);
    if found.None? {
      return Invalid(UnknownDataset);
    }
    var ds := found.value;
    if |spec.dimensions| == 0 && |spec.measures| == 0 {
      return Invalid(EmptySpec);
    }
    if |spec.dimensions| > MAX_DIMENSIONS {
      return Invalid(TooManyDimensions);
    }
    if |spec.measures| > MAX_MEASURES {
      return Invalid(TooManyMeasures);
    }
    if |spec.filters| > MAX_FILTERS {
      return Invalid(TooManyFilters);
    }
    var error, seen := CheckDimensions(ds, spec);
    if error.Some? {
      return Invalid(error.value);
    }
    error := CheckMeasures(ds, spec);
    if error.Some? {
      return Invalid(error.value);
    }
    error := CheckFilters(ds, spec);
    if error.Some? {
      return Invalid(error.value);
    }
    error := CheckSorts(spec, seen);
    if error.Some? {
      return Invalid(error.value);
    }
    if spec.limit < 0 || spec.limit > MAX_LIMIT {
      return Invalid(InvalidLimit);
    }
    r := Valid(ds);
  }
}
