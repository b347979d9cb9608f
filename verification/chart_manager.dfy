/** The chart registry: built from the chart components found at construction,
    queried by name, and used to mount a chart into exactly one container. */
module ChartManager {
  import opened Outcomes
  import opened Js

  /** A chart component definition; `definition` identifies the file it came from, and
      `hasSetState` says whether the component defines a `_setState` method. */
  datatype ChartComponent = ChartComponent(name: string, definition: string, hasSetState: bool)

  /** `availableCharts`: the name-to-component map, together with the order in which
      the names were first inserted, which is the order `Object.keys` reports for
      non-numeric names. */
  datatype Registry = Registry(order: seq<string>, charts: map<string, ChartComponent>)

  ghost predicate Distinct(xs: seq<string>) {
    forall i, j :: 0 <= i < j < |xs| ==> xs[i] != xs[j]
  }

  ghost predicate Valid(reg: Registry) {
    && Distinct(reg.order)
    && (forall n :: n in reg.order <==> n in reg.charts)
    && (forall n :: n in reg.charts ==> reg.charts[n].name == n)
  }

  /** `this.availableCharts[vm.name] = vm`: a later component with the same name
      replaces the earlier one but keeps its position. */
  function Register(reg: Registry, c: ChartComponent): (r: Registry)
    requires Valid(reg)
    ensures Valid(r)
    ensures r.charts == reg.charts[c.name := c]
    ensures c.name in reg.charts ==> r.order == reg.order
    ensures c.name !in reg.charts ==> r.order == reg.order + [c.name]
  {
    if c.name in reg.charts then Registry(reg.order, reg.charts[c.name := c])
    else Registry(reg.order + [c.name], reg.charts[c.name := c])
  }

  /** The constructor: register every component found, in discovery order. */
  function Build(found: seq<ChartComponent>): (r: Registry)
    ensures Valid(r)
    ensures r.charts.Keys == set c | c in found :: c.name
  {
    if |found| == 0 then Registry([], map[])
    else
      var init := found[..|found| - 1];
      var last := found[|found| - 1];
      assert found == init + [last];
      assert (set c | c in found :: c.name) == (set c | c in init :: c.name) + {last.name};
      Register(Build(init), last)
  }

  /** The registry maps each name to the LAST component found with that name. */
  lemma {:induction false} BuildKeepsLast(found: seq<ChartComponent>, i: nat)
    requires i < |found|
    requires forall j :: i < j < |found| ==> found[j].name != found[i].name
    ensures found[i].name in Build(found).charts
    ensures Build(found).charts[found[i].name] == found[i]
    decreases |found|
  {
    if i < |found| - 1 {
      var init := found[..|found| - 1];
      BuildKeepsLast(init, i);
    }
  }

  /** `getAvailableCharts()`: the registry's names, each once, in insertion order. */
  function GetAvailableCharts(reg: Registry): (names: seq<string>)
    requires Valid(reg)
    ensures forall n :: n in names <==> n in reg.charts
    ensures |names| == |reg.charts|
  {
    DistinctCard(reg.order, reg.charts.Keys);
    reg.order
  }

  lemma {:induction false} DistinctCard(xs: seq<string>, keys: set<string>)
    requires Distinct(xs)
    requires forall n :: n in xs <==> n in keys
    ensures |xs| == |keys|
    decreases |xs|
  {
    if |xs| > 0 {
      var last := xs[|xs| - 1];
      var init := xs[..|xs| - 1];
      assert last !in init;
      forall n | n in init ensures n in keys - {last} {
        assert n in xs;
      }
      forall n | n in keys - {last} ensures n in init {
        assert n in xs;
        var k :| 0 <= k < |xs| && xs[k] == n;
        assert k < |xs| - 1;
        assert init[k] == n;
      }
      DistinctCard(init, keys - {last});
    } else {
      assert forall n :: n !in keys;
      assert keys == {};
    }
  }

  /** A DOM element that can hold children: the chart hosts appended to it. */
  datatype Container = Container(children: seq<Node>)

  /** A child node: some other element, or a div on which a chart was mounted. */
  datatype Node = Other(id: nat) | ChartHost(vm: ChartVm)

  /** A mounted chart component and the state last applied to it with `_setState`. */
  datatype ChartVm = ChartVm(component: ChartComponent, appliedState: Option<JsValue>)

  datatype ChartError =
    | NotAvailable(chart: string)
    | SelectorNotUnique(matched: nat)

  datatype Mounted = Mounted(vm: ChartVm, container: Container)

  /** `setChart(chart, selector)`, with `document.querySelectorAll(selector)` given as
      the list of matching containers. Returns the mounted chart and the container
      as it is afterwards. */
  function SetChart(reg: Registry, chart: string, matches: seq<Container>): (r: Result<Mounted, ChartError>)
    ensures chart !in reg.charts ==> r == Err(NotAvailable(chart))
    ensures chart in reg.charts && |matches| != 1 ==> r == Err(SelectorNotUnique(|matches|))
    ensures r.Ok? <==> chart in reg.charts && |matches| == 1
    ensures r.Ok? ==> && r.value.vm == ChartVm(reg.charts[chart], None)
                      && r.value.container.children == matches[0].children + [ChartHost(r.value.vm)]
  {
    if chart !in reg.charts then Err(NotAvailable(chart))
    else if |matches| != 1 then Err(SelectorNotUnique(|matches|))
    else
      var vm := ChartVm(reg.charts[chart], None);
      Ok(Mounted(vm, Container(matches[0].children + [ChartHost(vm)])))
  }

  /** A chart found at construction can be mounted by its name into a container that
      a selector matches alone, and the mounted chart is the last component found
      under that name. */
  lemma SetChartAfterBuild(found: seq<ChartComponent>, i: nat, c: Container)
    requires i < |found|
    requires forall j :: i < j < |found| ==> found[j].name != found[i].name
    ensures var r := SetChart(Build(found), found[i].name, [c]);
            && r.Ok?
            && r.value.vm.component == found[i]
            && r.value.container.children == c.children + [ChartHost(r.value.vm)]
  {
    BuildKeepsLast(found, i);
  }
}
