/**
 * The medium-voltage ring builder (`MvNetworkBuilder`): starting from a line
 * at an HV/MV station it follows the MV cables, emitting a cable and a joint
 * per line, a cable, joints and a transformer per MV/LV station passed, and
 * a loop-back cable when it returns to a point it has a station for. Only
 * rings are kept: a pass that ends in a dead end gives no assets.
 */
module MvBuilder {
  import opened Wrappers
  import opened Geometry
  import opened LineIndex
  import opened Esdl
  import Lists
  import Alliander

  // ------------------------------------------------- the parser's queries

  /**
   * What the builder asks its `NetworkParser`: the MV line index
   * (`str_tree_mv_lines`), the three continuation sources at a point, the
   * transformer-house building year at a point, the cable type for a year
   * and the starting-line containers of the HV/MV stations.
   */
  datatype MvParser = MvParser(
    table: LineTable,
    mvLvStationLinesAt: Point -> seq<NavigationLine>,
    hvMvStationLinesAt: Point -> seq<NavigationLine>,
    linesConnectedAt: Point -> seq<NavigationLine>,
    transformerHouseYear: Point -> int,
    cableType: int -> string,
    hvMvContainers: seq<StationContainer>)

  /** Every line names a line of the index. */
  predicate InTable(lines: seq<NavigationLine>, n: int)
  {
    forall k :: 0 <= k < |lines| ==> 0 <= lines[k].index < n
  }

  /** The queries hand out lines of the MV index only. */
  ghost predicate ValidMvParser(p: MvParser)
  {
    && ValidTable(p.table)
    && (forall q :: InTable(p.mvLvStationLinesAt(q), |p.table.lines|))
    && (forall q :: InTable(p.hvMvStationLinesAt(q), |p.table.lines|))
    && (forall q :: InTable(p.linesConnectedAt(q), |p.table.lines|))
    && (forall k :: 0 <= k < |p.hvMvContainers| ==> InTable(p.hvMvContainers[k].startingLines, |p.table.lines|))
  }

  // --------------------------------------------- continuation handling

  /** The area the network is generated in: `x_bottom_left` … `y_top_right`. */
  datatype Box = Box(xBottomLeft: real, yBottomLeft: real, xTopRight: real, yTopRight: real)

  /** The open end lies strictly beyond one of the box's sides; its border counts as inside. */
  predicate OutOfBounds(box: Box, n: NavigationLine)
  {
    var p := EndCoords(n);
    p.x < box.xBottomLeft || p.y > box.yTopRight || p.x > box.xTopRight || p.y < box.yBottomLeft
  }

  function OutOfBoundsTest(box: Box): NavigationLine -> bool
  {
    (n: NavigationLine) => OutOfBounds(box, n)
  }

  function VisitedTest(visited: set<int>): NavigationLine -> bool
  {
    (n: NavigationLine) => n.index in visited
  }

  /**
   * `_remove_out_of_bounds_lines`: collects the lines whose open end is out
   * of the box, then removes each in place; exactly those go, and the others
   * keep their order.
   */
  method RemoveOutOfBoundsLines(box: Box, lines: seq<NavigationLine>) returns (r: seq<NavigationLine>)
    ensures r == Lists.Filter(lines, Lists.Negate(OutOfBoundsTest(box)))
    ensures forall k :: 0 <= k < |lines| ==> (lines[k] in r <==> !OutOfBounds(box, lines[k]))
    ensures forall k :: 0 <= k < |r| ==> r[k] in lines
  {
    var outOfBounds := Lists.Filter(lines, OutOfBoundsTest(box));
    r := Alliander.RemoveAll(lines, outOfBounds);
    Lists.RemoveSelectedIsFilter(lines, OutOfBoundsTest(box));
  }

  /**
   * `_remove_duplicate_lines`: removes, in place, exactly the lines whose
   * index is visited; the others keep their order.
   */
  method RemoveDuplicateLines(visited: set<int>, lines: seq<NavigationLine>) returns (r: seq<NavigationLine>)
    ensures r == Lists.Filter(lines, Lists.Negate(VisitedTest(visited)))
    ensures forall k :: 0 <= k < |lines| ==> (lines[k] in r <==> lines[k].index !in visited)
    ensures forall k :: 0 <= k < |r| ==> r[k] in lines
  {
    var existing := Lists.Filter(lines, VisitedTest(visited));
    r := Alliander.RemoveAll(lines, existing);
    Lists.RemoveSelectedIsFilter(lines, VisitedTest(visited));
  }

  /**
   * The station lines `_define_next_lines` falls back on at point `q`: those
   * of an MV/LV station, else those of an HV/MV station, else the lines
   * merely connected there.
   */
  function FallbackLines(p: MvParser, q: Point): seq<NavigationLine>
  {
    if p.mvLvStationLinesAt(q) != [] then p.mvLvStationLinesAt(q)
    else if p.hvMvStationLinesAt(q) != [] then p.hvMvStationLinesAt(q)
    else p.linesConnectedAt(q)
  }

  /**
   * `_define_next_lines`: the direct continuations inside the box and the
   * station continuations, both without visited lines. The fallback sources
   * are consulted only when the index finds no direct continuation at all,
   * and only the direct ones are checked against the box.
   */
  function NextLines(p: MvParser, box: Box, n: NavigationLine, visited: set<int>)
    : (r: (seq<NavigationLine>, seq<NavigationLine>))
    requires ValidMvParser(p)
    ensures forall k :: 0 <= k < |r.0| ==>
      r.0[k] in GetNextLines(p.table, n) && !OutOfBounds(box, r.0[k]) && r.0[k].index !in visited
    ensures GetNextLines(p.table, n) != [] ==> r.1 == []
    ensures forall k :: 0 <= k < |r.1| ==> r.1[k] in FallbackLines(p, EndCoords(n)) && r.1[k].index !in visited
    ensures r.0 == [] || r.1 == []
    ensures Fresh(r.0, r.1, visited, |p.table.lines|)
  {
    var next := GetNextLines(p.table, n);
    var station := if next == [] then FallbackLines(p, EndCoords(n)) else [];
    var direct := Lists.Filter(Lists.Filter(next, Lists.Negate(OutOfBoundsTest(box))), Lists.Negate(VisitedTest(visited)));
    assert forall k :: 0 <= k < |station| ==> 0 <= station[k].index < |p.table.lines|;
    (direct, Lists.Filter(station, Lists.Negate(VisitedTest(visited))))
  }

  /** Continuations a pass can take: lines of the index, none visited, not both kinds at once. */
  predicate Fresh(direct: seq<NavigationLine>, station: seq<NavigationLine>, visited: set<int>, size: int)
  {
    && InTable(direct, size) && InTable(station, size)
    && (forall k :: 0 <= k < |direct| ==> direct[k].index !in visited)
    && (forall k :: 0 <= k < |station| ==> station[k].index !in visited)
    && (direct == [] || station == [])
  }

  /**
   * Nothing is lost: every in-bounds unvisited direct continuation is kept,
   * and, when there is no direct continuation, every unvisited fallback line.
   */
  lemma NextLinesComplete(p: MvParser, box: Box, n: NavigationLine, visited: set<int>)
    requires ValidMvParser(p)
    ensures var r := NextLines(p, box, n, visited);
      && (forall k :: 0 <= k < |GetNextLines(p.table, n)| ==>
            var c := GetNextLines(p.table, n)[k];
            !OutOfBounds(box, c) && c.index !in visited ==> c in r.0)
      && (GetNextLines(p.table, n) == [] ==>
            forall k :: 0 <= k < |FallbackLines(p, EndCoords(n))| ==>
              var c := FallbackLines(p, EndCoords(n))[k];
              c.index !in visited ==> c in r.1)
  {
    var next := GetNextLines(p.table, n);
    var inBounds := Lists.Filter(next, Lists.Negate(OutOfBoundsTest(box)));
    assert forall k :: 0 <= k < |next| && !OutOfBounds(box, next[k]) ==> next[k] in inBounds;
  }

  // -------------------------------------------------------- asset walks

  datatype MvError =
    | NoBuildingYearFound   // `_find_last_trafo_with_building_year`'s ValueError
    | ExploredAllPaths      // `_initialize_starting_parameters`' ValueError
    | IndexOutOfRange       // an IndexError from a list subscript

  /** A transformer or joint whose commissioning date is set and is not `datetime.min` (year 1). */
  predicate Dated(a: Asset)
  {
    (a.kind == Transformer || a.kind == Joint) && a.commissioningYear.Some? && a.commissioningYear.value != 1
  }

  /** The position of the last dated transformer or joint, or -1. */
  function LastDated(objs: seq<Asset>): (k: int)
    ensures -1 <= k < |objs|
    ensures k >= 0 ==> Dated(objs[k])
    ensures forall j :: k < j < |objs| ==> !Dated(objs[j])
  {
    if objs == [] then -1
    else if Dated(objs[|objs| - 1]) then |objs| - 1
    else LastDated(objs[..|objs| - 1])
  }

  /** The position of the last transformer, or -1. */
  function LastTransformer(objs: seq<Asset>): (k: int)
    ensures -1 <= k < |objs|
    ensures k >= 0 ==> objs[k].kind == Transformer
    ensures forall j :: k < j < |objs| ==> objs[j].kind != Transformer
  {
    if objs == [] then -1
    else if objs[|objs| - 1].kind == Transformer then |objs| - 1
    else LastTransformer(objs[..|objs| - 1])
  }

  /**
   * `_find_last_trafo_with_building_year`: scanning from the end, the first
   * dated transformer or joint. With none it raises `ValueError`, unless the
   * list is empty: its message reads the last asset, which raises
   * `IndexError` first.
   */
  function FindLastTrafoWithBuildingYear(objs: seq<Asset>): (r: Result<Asset, MvError>)
    ensures r.Ok? <==> LastDated(objs) >= 0
    ensures r.Ok? ==> r.value == objs[LastDated(objs)] && Dated(r.value)
    ensures r.Err? ==> r.error == (if objs == [] then IndexOutOfRange else NoBuildingYearFound)
  {
    var k := LastDated(objs);
    if k >= 0 then Ok(objs[k])
    else if objs == [] then Err(IndexOutOfRange)
    else Err(NoBuildingYearFound)
  }

  function Max(a: int, b: int): int
  {
    if a < b then b else a
  }

  /** A cable given a type label and a commissioning year (1 January of it). */
  function Retype(a: Asset, typeLabel: string, year: int): Asset
  {
    a.(assetType := typeLabel, commissioningYear := Some(year))
  }

  /**
   * `_update_cable_types(year, objs)`: each cable after the last transformer
   * gets the type for `year` and the later of `year` and the last dated
   * station's year; nothing else changes. It fails as the station lookup does.
   */
  function CableTypesUpdated(cableType: int -> string, year: int, objs: seq<Asset>): (r: Result<seq<Asset>, MvError>)
    ensures r.Ok? <==> LastDated(objs) >= 0
    ensures r.Err? ==> r.error == FindLastTrafoWithBuildingYear(objs).error
    ensures r.Ok? ==> |r.value| == |objs|
    ensures r.Ok? ==> forall i :: 0 <= i < |objs| ==>
      && r.value[i].kind == objs[i].kind && r.value[i].name == objs[i].name && r.value[i].at == objs[i].at
      && (Dated(r.value[i]) <==> Dated(objs[i]))
      && (i <= LastTransformer(objs) || objs[i].kind != Cable ==> r.value[i] == objs[i])
      && (LastTransformer(objs) < i && objs[i].kind == Cable ==>
            r.value[i].assetType == cableType(year)
            && r.value[i].commissioningYear == Some(Max(objs[LastDated(objs)].commissioningYear.value, year)))
  {
    var last := FindLastTrafoWithBuildingYear(objs);
    if last.Err? then Err(last.error)
    else
      var cableYear := Max(last.value.commissioningYear.value, year);
      var t := LastTransformer(objs);
      Ok(seq(|objs|, i requires 0 <= i < |objs| =>
        if t < i && objs[i].kind == Cable then Retype(objs[i], cableType(year), cableYear) else objs[i]))
  }

  /**
   * Updating the cable types twice for the same year is updating them once:
   * retyping moves neither the last transformer nor the last dated station.
   */
  lemma CableTypesUpdateIsIdempotent(cableType: int -> string, year: int, objs: seq<Asset>)
    requires CableTypesUpdated(cableType, year, objs).Ok?
    ensures CableTypesUpdated(cableType, year, CableTypesUpdated(cableType, year, objs).value)
         == CableTypesUpdated(cableType, year, objs)
  {
    var once := CableTypesUpdated(cableType, year, objs).value;
    assert LastTransformer(once) == LastTransformer(objs) by {
      var t := LastTransformer(objs);
      assert t >= 0 ==> once[t].kind == Transformer;
      assert forall j :: t < j < |once| ==> once[j].kind != Transformer;
      LastTransformerIsUnique(once, t);
    }
    assert LastDated(once) == LastDated(objs) by {
      var d := LastDated(objs);
      assert d >= 0 && Dated(once[d]);
      assert forall j :: d < j < |once| ==> !Dated(once[j]);
      LastDatedIsUnique(once, d);
    }
    var twice := CableTypesUpdated(cableType, year, once).value;
    assert |twice| == |once|;
    forall i | 0 <= i < |once| ensures twice[i] == once[i] {
    }
    assert twice == once;
  }

  lemma {:induction false} LastTransformerIsUnique(objs: seq<Asset>, t: int)
    requires -1 <= t < |objs| && (t >= 0 ==> objs[t].kind == Transformer)
    requires forall j :: t < j < |objs| ==> objs[j].kind != Transformer
    ensures LastTransformer(objs) == t
  {
    if objs != [] && t < |objs| - 1 {
      var init := objs[..|objs| - 1];
      assert forall j :: t < j < |init| ==> init[j] == objs[j];
      assert t >= 0 ==> init[t] == objs[t];
      LastTransformerIsUnique(init, t);
    }
  }

  lemma {:induction false} LastDatedIsUnique(objs: seq<Asset>, d: int)
    requires -1 <= d < |objs| && (d >= 0 ==> Dated(objs[d]))
    requires forall j :: d < j < |objs| ==> !Dated(objs[j])
    ensures LastDated(objs) == d
  {
    if objs != [] && d < |objs| - 1 {
      var init := objs[..|objs| - 1];
      assert forall j :: d < j < |init| ==> init[j] == objs[j];
      assert d >= 0 ==> init[d] == objs[d];
      LastDatedIsUnique(init, d);
    }
  }

  /** `_update_cable_types`: the reversed loop that retypes cables until it has passed a transformer. */
  method UpdateCableTypes(cableType: int -> string, year: int, objs: seq<Asset>) returns (r: Result<seq<Asset>, MvError>)
    ensures r == CableTypesUpdated(cableType, year, objs)
  {
    var lastTrafo := FindLastTrafoWithBuildingYear(objs);
    if lastTrafo.Err? {
      return Err(lastTrafo.error);
    }
    var cableYear := Max(lastTrafo.value.commissioningYear.value, year);
    ghost var t := LastTransformer(objs);
    var assets := objs;
    var i := |objs|;
    while i > 0
      invariant 0 <= i <= |objs| && |assets| == |objs| && t < i
      invariant forall j :: 0 <= j < i ==> assets[j] == objs[j]
      invariant forall j :: i <= j < |objs| ==>
        assets[j] == if objs[j].kind == Cable then Retype(objs[j], cableType(year), cableYear) else objs[j]
    {
      i := i - 1;
      if objs[i].kind == Cable {
        assets := assets[i := Retype(objs[i], cableType(year), cableYear)];
      }
      if objs[i].kind == Transformer {
        break;
      }
    }
    ghost var expected := CableTypesUpdated(cableType, year, objs).value;
    assert forall j :: 0 <= j < |objs| ==> assets[j] == expected[j];
    assert assets == expected;
    r := Ok(assets);
  }

  // ------------------------------------------------------- new assets

  /** The name part `HighVoltageTrafo` marks the station a pass started from. */
  const HighVoltageTrafoName: string := "HighVoltageTrafo"

  /** A decimal digit. */
  function DigitChar(d: int): (c: char)
    requires 0 <= d < 10
    ensures '0' <= c <= '9'
  {
    (48 + d) as char
  }

  /** Python's `str` of an integer. */
  function Decimal(n: int): (s: string)
    ensures |s| > 0
    ensures forall k :: 0 <= k < |s| ==> s[k] == '-' || '0' <= s[k] <= '9'
    decreases if n < 0 then 1 - n else n
  {
    if n < 0 then "-" + Decimal(-n)
    else if n < 10 then [DigitChar(n)]
    else Decimal(n / 10) + [DigitChar(n % 10)]
  }

  /** The In and Out port every new asset gets. */
  const TwoPorts: seq<Port> := [Port(InPort, "In"), Port(OutPort, "Out")]

  /** `_generate_esdl_cable`: named after the line, type "testtype", no date; its geometry is reduced to its first point. */
  function NewCable(n: NavigationLine): Asset
  {
    Asset(Cable, "Cable" + Decimal(n.index), n.line.first, None, "testtype", TwoPorts)
  }

  /** `_generate_new_transformer`: type "testtrafotype", dated `datetime.min` unless a year is given. */
  function NewTransformer(at: Point, name: string, year: int): Asset
  {
    Asset(Transformer, name, at, Some(year), "testtrafotype", TwoPorts)
  }

  /** `generate_esdl_joint` at a point, with a commissioning year set or not. */
  function NewJoint(at: Point, name: string, year: Option<int>): (j: Asset)
    ensures j.kind == Joint && j.at == at && j.name == name && j.commissioningYear == year
  {
    GenerateEsdlJoint(at.x, at.y, name).(commissioningYear := year)
  }

  /** The name of joint number `k`. */
  function JointName(k: int): string
  {
    "joint" + Decimal(k)
  }

  /** No string without the letter H has `HighVoltageTrafo` in it. */
  lemma NoCapitalHNoHighVoltage(name: string)
    requires forall k :: 0 <= k < |name| ==> name[k] != 'H'
    ensures !Lists.HasSubstring(name, HighVoltageTrafoName)
  {
    forall i | 0 <= i <= |name| - |HighVoltageTrafoName| ensures !Lists.OccursAt(name, HighVoltageTrafoName, i) {
      assert name[i..i + |HighVoltageTrafoName|][0] == name[i] != HighVoltageTrafoName[0];
    }
  }

  /**
   * The loop-back test tells the starting station's joint from the joints
   * made on the way: only the first has `HighVoltageTrafo` in its name.
   */
  lemma OnlyStartingJointIsHighVoltage(k: int)
    ensures Lists.HasSubstring("joint" + HighVoltageTrafoName, HighVoltageTrafoName)
    ensures !Lists.HasSubstring(JointName(k), HighVoltageTrafoName)
  {
    var hv := "joint" + HighVoltageTrafoName;
    assert hv[5..5 + |HighVoltageTrafoName|] == HighVoltageTrafoName;
    assert Lists.OccursAt(hv, HighVoltageTrafoName, 5);
    var name := JointName(k);
    forall i | 0 <= i < |name| ensures name[i] != 'H' {
      if i >= 5 {
        assert name[i] == Decimal(k)[i - 5];
      }
    }
    NoCapitalHNoHighVoltage(name);
  }

  /** `EsdlAssetWithMetaData`: the asset a pass continues from and the running number for naming. */
  datatype Node = Node(obj: Asset, number: int)

  /**
   * `_add_esdl_node_and_joint` (through `_add_esdl_node_and_edge`): a cable
   * for the line and an undated joint at its open end are appended, and
   * the pass continues from the joint.
   */
  function WithJoint(n: NavigationLine, from: Node, objs: seq<Asset>): (r: (Node, seq<Asset>))
    ensures r.1 == objs + [NewCable(n), r.0.obj]
    ensures r.0.obj.kind == Joint && r.0.obj.at == EndCoords(n) && r.0.obj.commissioningYear == None
    ensures r.0.obj.name == JointName(from.number) && r.0.number == from.number + 1
  {
    var joint := NewJoint(EndCoords(n), JointName(from.number), None);
    (Node(joint, from.number + 1), objs + [NewCable(n), joint])
  }

  /**
   * `_add_loop_back_cable`: a cable back to the station at the open end,
   * dated the later of that station's year and the last dated station's
   * year on this pass, appended; then the cable types are updated for that
   * year.
   */
  function WithLoopBack(cableType: int -> string, n: NavigationLine, objs: seq<Asset>, station: Asset)
    : (r: Result<seq<Asset>, MvError>)
    requires station.commissioningYear.Some?
    ensures r.Ok? <==> LastDated(objs) >= 0
    ensures r.Err? ==> r.error == FindLastTrafoWithBuildingYear(objs).error
    ensures r.Ok? ==>
      var year := Max(station.commissioningYear.value, objs[LastDated(objs)].commissioningYear.value);
      && |r.value| == |objs| + 1
      && r.value[|objs|] == Retype(NewCable(n), cableType(year), year)
      && RunRetyped(objs, r.value, cableType(year), year)
  {
    var last := FindLastTrafoWithBuildingYear(objs);
    if last.Err? then Err(last.error)
    else
      var year := Max(station.commissioningYear.value, last.value.commissioningYear.value);
      var withCable := objs + [NewCable(n).(commissioningYear := Some(year))];
      LastDatedOfAppended(objs, [withCable[|objs|]]);
      LastTransformerOfAppended(objs, [withCable[|objs|]]);
      CableTypesUpdated(cableType, year, withCable)
  }

  /**
   * `after` starts as `before` with each cable after its last transformer
   * given a type label and a year, and every other asset unchanged.
   */
  predicate RunRetyped(before: seq<Asset>, after: seq<Asset>, typeLabel: string, year: int)
  {
    |before| <= |after| && forall i :: 0 <= i < |before| ==>
      && after[i].kind == before[i].kind
      && (i <= LastTransformer(before) || before[i].kind != Cable ==> after[i] == before[i])
      && (LastTransformer(before) < i && before[i].kind == Cable ==> after[i] == Retype(before[i], typeLabel, year))
  }

  /** Appending assets that are not dated stations keeps the last dated station. */
  lemma LastDatedOfAppended(objs: seq<Asset>, more: seq<Asset>)
    requires forall k :: 0 <= k < |more| ==> !Dated(more[k])
    ensures LastDated(objs + more) == LastDated(objs)
  {
    var all := objs + more;
    assert forall j :: LastDated(objs) < j < |all| ==> !Dated(all[j]) by {
      forall j | LastDated(objs) < j < |all| ensures !Dated(all[j]) {
        if j >= |objs| {
          assert all[j] == more[j - |objs|];
        }
      }
    }
    LastDatedIsUnique(all, LastDated(objs));
  }

  /** Appending assets that are not transformers keeps the last transformer. */
  lemma LastTransformerOfAppended(objs: seq<Asset>, more: seq<Asset>)
    requires forall k :: 0 <= k < |more| ==> more[k].kind != Transformer
    ensures LastTransformer(objs + more) == LastTransformer(objs)
  {
    var all := objs + more;
    assert forall j :: LastTransformer(objs) < j < |all| ==> all[j].kind != Transformer by {
      forall j | LastTransformer(objs) < j < |all| ensures all[j].kind != Transformer {
        if j >= |objs| {
          assert all[j] == more[j - |objs|];
        }
      }
    }
    LastTransformerIsUnique(all, LastTransformer(objs));
  }

  /**
   * The year `_add_esdl_node_and_transformer` gives a new station: the
   * transformer house's year, or, when that is the sentinel 1, the year of
   * the last dated transformer or joint.
   */
  function StationYear(houseYear: int, objs: seq<Asset>): (r: Result<int, MvError>)
    ensures houseYear != 1 ==> r == Ok(houseYear)
    ensures houseYear == 1 && LastDated(objs) >= 0 ==> r == Ok(objs[LastDated(objs)].commissioningYear.value)
    ensures houseYear == 1 && LastDated(objs) < 0 ==> r == Err(FindLastTrafoWithBuildingYear(objs).error)
    ensures r.Ok? ==> r.value != 1
  {
    if houseYear != 1 then Ok(houseYear)
    else
      var last := FindLastTrafoWithBuildingYear(objs);
      if last.Err? then Err(last.error) else Ok(last.value.commissioningYear.value)
  }

  /**
   * The assets `_add_esdl_node_and_transformer` adds for a station of year
   * `year`: a cable and a joint dated `year`, an undated joint on the LV
   * side and a transformer dated `year`; every cable since the previous
   * transformer, the new one included, gets the type for `year`. The pass
   * continues from the dated joint, two numbers on.
   */
  function WithStation(cableType: int -> string, year: int, n: NavigationLine, from: Node, objs: seq<Asset>)
    : (r: (Node, seq<Asset>))
    requires year != 1
    ensures var assets := r.1;
      var at := EndCoords(n);
      && |assets| == |objs| + 4
      && assets[|objs|] == Retype(NewCable(n), cableType(year), year)
      && assets[|objs| + 1] == NewJoint(at, JointName(from.number), Some(year))
      && assets[|objs| + 2] == NewJoint(at, JointName(from.number + 2), None)
      && assets[|objs| + 3] == NewTransformer(at, "transformer" + Decimal(from.number), year)
      && r.0 == Node(assets[|objs| + 1], from.number + 2)
      && RunRetyped(objs, assets, cableType(year), year)
  {
    var at := EndCoords(n);
    var dated := NewJoint(at, JointName(from.number), Some(year));
    var lvJoint := NewJoint(at, JointName(from.number + 2), None);
    var upTo := objs + [NewCable(n), dated, lvJoint];
    LastTransformerOfAppended(objs, [NewCable(n), dated, lvJoint]);
    LastDatedIsUnique(upTo, |objs| + 1);
    var updated := CableTypesUpdated(cableType, year, upTo).value;
    assert forall i :: 0 <= i < |objs| ==> upTo[i] == objs[i];
    (Node(dated, from.number + 2), updated + [NewTransformer(at, "transformer" + Decimal(from.number), year)])
  }

  /**
   * `_add_esdl_node_and_transformer`: the station's year is the transformer
   * house's, or, when that is the sentinel 1, the last dated station's on
   * this pass, searched after the new, undated, assets were appended; with
   * none it fails.
   */
  function WithTransformer(cableType: int -> string, houseYear: int, n: NavigationLine, from: Node, objs: seq<Asset>)
    : (r: Result<(Node, seq<Asset>), MvError>)
    ensures r.Ok? <==> StationYear(houseYear, objs).Ok?
    ensures r.Err? ==> r.error == NoBuildingYearFound
    ensures r.Ok? ==> r.value == WithStation(cableType, StationYear(houseYear, objs).value, n, from, objs)
  {
    var at := EndCoords(n);
    var added := [NewCable(n), NewJoint(at, JointName(from.number), None), NewJoint(at, JointName(from.number + 2), None),
                  NewTransformer(at, "transformer" + Decimal(from.number), 1)];
    LastDatedOfAppended(objs, added);
    var sy := StationYear(houseYear, objs + added);
    if sy.Err? then Err(sy.error) else Ok(WithStation(cableType, sy.value, n, from, objs))
  }

  /** A sequence that starts with `prefix` is `prefix` followed by the rest, which ends as it does. */
  lemma PrefixThenRest<T>(prefix: seq<T>, s: seq<T>)
    requires |prefix| <= |s| && s[..|prefix|] == prefix
    ensures s == prefix + s[|prefix|..]
    ensures |s| > |prefix| ==> s[|prefix|..][|s| - |prefix| - 1] == s[|s| - 1]
  {
    assert s == s[..|prefix|] + s[|prefix|..];
  }

  // -------------------------------------------------- the ring builder

  /** The lines not visited yet: every step of a pass shrinks this set or ends. */
  function Unvisited(n: int, visited: set<int>): set<int>
  {
    set i | 0 <= i < n && i !in visited
  }

  /** Visiting an unvisited line of the index leaves fewer unvisited lines. */
  lemma VisitShrinks(n: int, visited: set<int>, i: int)
    requires 0 <= i < n && i !in visited
    ensures Unvisited(n, visited + {i}) < Unvisited(n, visited)
  {
    assert i in Unvisited(n, visited) - Unvisited(n, visited + {i});
  }

  /** Visiting more lines never adds unvisited ones. */
  lemma VisitingMoreShrinks(n: int, visited: set<int>, more: set<int>)
    requires visited <= more
    ensures Unvisited(n, more) <= Unvisited(n, visited)
  {
  }

  /**
   * What a pass may return from a line, reached from asset `first`: no
   * assets (not a ring), just `first` (the line was visited), or `first`
   * followed by assets ending in the cable that closed a ring.
   */
  predicate RingShaped(assets: seq<Asset>, first: Asset)
  {
    assets == [] || assets == [first] || (|assets| >= 2 && assets[0] == first && assets[|assets| - 1].kind == Cable)
  }

  /** The cases of the loop in `_build_mv_network_recursive`. */
  datatype LoopCase = BranchCase | JointCase | TransformerCase | NoCase

  /** The case the loop takes, as written: a direct list of two or more lines matches none. */
  function AsWrittenLoopCase(direct: seq<NavigationLine>, station: seq<NavigationLine>): LoopCase
  {
    if |station| > 1 then BranchCase
    else if |direct| == 1 then JointCase
    else if |station| == 1 then TransformerCase
    else NoCase
  }

  /** The case the loop takes, corrected: several continuations of either kind are a branch. */
  function CorrectedLoopCase(direct: seq<NavigationLine>, station: seq<NavigationLine>): (c: LoopCase)
    ensures |direct| + |station| > 0 <==> c != NoCase
    ensures !(|direct| > 1 && |station| <= 1) ==> c == AsWrittenLoopCase(direct, station)
  {
    if |station| > 1 || |direct| > 1 then BranchCase
    else if |direct| == 1 then JointCase
    else if |station| == 1 then TransformerCase
    else NoCase
  }

  /** None of `lines` is visited. */
  predicate AllUnvisited(lines: seq<NavigationLine>, visited: set<int>)
  {
    forall k :: 0 <= k < |lines| ==> lines[k].index !in visited
  }

  /**
   * The first half of the branch case at the open end of `current`: a loop
   * point gets a loop-back cable to its station and the branches are
   * followed unless that station is the starting HV station; a new
   * intersection whose continuations are all unvisited gets a station whose
   * joint the branches start from; otherwise nothing is added. The result
   * is the node to branch from, the assets so far, and whether to descend.
   */
  function Marked(cableType: int -> string, houseYear: int, current: NavigationLine, node: Node, retVal: seq<Asset>,
                  allUnvisited: bool, loops: map<Point, Asset>): Result<(Node, seq<Asset>, bool), MvError>
    requires forall p :: p in loops ==> loops[p].commissioningYear.Some?
  {
    var coords := EndCoords(current);
    if coords in loops then
      var back := WithLoopBack(cableType, current, retVal, loops[coords]);
      if back.Err? then Err(back.error)
      else Ok((node, back.value, !Lists.HasSubstring(loops[coords].name, HighVoltageTrafoName)))
    else if allUnvisited then
      var added := WithTransformer(cableType, houseYear, current, node, retVal);
      if added.Err? then Err(added.error) else Ok((added.value.0, added.value.1, true))
    else Ok((node, retVal, true))
  }

  /**
   * What the branch case adds: one cable at a loop point, a cable, two
   * joints and a transformer at a new intersection, nothing otherwise; the
   * assets so far are kept in front; only a loop back to the starting HV
   * station stops the descent, and then the assets end in the loop-back
   * cable. It fails exactly when no dated station precedes a loop-back, or
   * when a new station finds no year.
   */
  lemma MarkedShape(cableType: int -> string, houseYear: int, current: NavigationLine, node: Node, retVal: seq<Asset>,
                    allUnvisited: bool, loops: map<Point, Asset>)
    requires forall p :: p in loops ==> loops[p].commissioningYear.Some?
    requires node.obj.kind == Joint && |retVal| >= 1 && retVal[0].kind == Joint
    ensures var coords := EndCoords(current);
      var r := Marked(cableType, houseYear, current, node, retVal, allUnvisited, loops);
      && (r.Err? <==> (coords in loops && LastDated(retVal) < 0)
                      || (coords !in loops && allUnvisited && StationYear(houseYear, retVal).Err?))
      && (r.Ok? ==>
            var from, ret, descend := r.value.0, r.value.1, r.value.2;
            && from.obj.kind == Joint && |ret| >= |retVal| && ret[0] == retVal[0]
            && (coords in loops ==>
                  && from == node && |ret| == |retVal| + 1 && ret[|retVal|].kind == Cable
                  && (descend <==> !Lists.HasSubstring(loops[coords].name, HighVoltageTrafoName)))
            && (coords !in loops ==> descend)
            && (coords !in loops && allUnvisited ==> |ret| == |retVal| + 4)
            && (coords !in loops && !allUnvisited ==> from == node && ret == retVal)
            && (!descend ==> ret[|ret| - 1].kind == Cable))
  {
    var coords := EndCoords(current);
    if coords in loops {
      var back := WithLoopBack(cableType, current, retVal, loops[coords]);
      if back.Ok? {
        assert back.value[0].kind == retVal[0].kind;
      }
    } else if allUnvisited {
      var sy := StationYear(houseYear, retVal);
      if sy.Ok? {
        var st := WithStation(cableType, sy.value, current, node, retVal);
        assert st.1[0].kind == retVal[0].kind;
      }
    }
  }

  /** `visited_lines` and `loops_mapping`: the state one pass shares across the recursion. */
  class PassState {
    var visited: set<int>
    var loops: map<Point, Asset>

    constructor (loops: map<Point, Asset>)
      ensures visited == {} && this.loops == loops
    {
      visited := {};
      this.loops := loops;
    }
  }

  /** What `_initialize_starting_parameters` hands a pass. */
  datatype StartingParameters = StartingParameters(loopKeys: set<Point>, startingLine: NavigationLine, buildingYear: int)

  /** The starting-line cursor: container, line within it, and `all_visited_lines`. */
  datatype Cursor = Cursor(container: int, line: int, allVisited: set<int>)

  /** Where the cursor ends, and the error raised there, if any. */
  datatype Stop = Stop(at: Cursor, error: Option<MvError>)

  predicate AtLine(cs: seq<StationContainer>, c: Cursor)
  {
    0 <= c.container < |cs| && 0 <= c.line < |cs[c.container].startingLines|
  }

  function LineAt(cs: seq<StationContainer>, c: Cursor): NavigationLine
    requires AtLine(cs, c)
  {
    cs[c.container].startingLines[c.line]
  }

  /**
   * The `while` loop of `_initialize_starting_parameters`: skips visited
   * starting lines; past the end of a container it clears the visited list
   * and moves to the next container, raising once there is none.
   */
  function Scan(cs: seq<StationContainer>, c: Cursor): (s: Stop)
    requires AtLine(cs, c)
    decreases |cs| - c.container, |cs[c.container].startingLines| - c.line
  {
    if LineAt(cs, c).index !in c.allVisited then Stop(c, None)
    else if c.line + 1 < |cs[c.container].startingLines| then Scan(cs, c.(line := c.line + 1))
    else if c.container + 1 >= |cs| then Stop(Cursor(c.container, c.line + 1, {}), Some(ExploredAllPaths))
    else if |cs[c.container + 1].startingLines| == 0 then Stop(Cursor(c.container + 1, 0, {}), Some(IndexOutOfRange))
    else Scan(cs, Cursor(c.container + 1, 0, {}))
  }

  /** `_initialize_starting_parameters`' cursor: the two subscripts, then the scan. */
  function StartCursor(cs: seq<StationContainer>, c: Cursor): Stop
  {
    if AtLine(cs, c) then Scan(cs, c) else Stop(c, Some(IndexOutOfRange))
  }

  /**
   * The scan ends on an unvisited line, in the same container with the same
   * visited list, or at the first line of the next container with the list
   * cleared; every line it passes over in the first container is visited.
   */
  lemma {:induction false} ScanFindsUnvisited(cs: seq<StationContainer>, c: Cursor)
    requires AtLine(cs, c) && Scan(cs, c).error.None?
    ensures var d := Scan(cs, c).at;
      && AtLine(cs, d) && LineAt(cs, d).index !in d.allVisited
      && ((d.container == c.container && c.line <= d.line && d.allVisited == c.allVisited)
          || (d.container == c.container + 1 && d.line == 0 && d.allVisited == {}))
      && (forall j :: c.line <= j < |cs[c.container].startingLines| && (d.container == c.container ==> j < d.line) ==>
            cs[c.container].startingLines[j].index in c.allVisited)
    decreases |cs| - c.container, |cs[c.container].startingLines| - c.line
  {
    if LineAt(cs, c).index in c.allVisited {
      if c.line + 1 < |cs[c.container].startingLines| {
        ScanFindsUnvisited(cs, c.(line := c.line + 1));
      } else {
        assert Scan(cs, c) == Scan(cs, Cursor(c.container + 1, 0, {}));
        assert Scan(cs, Cursor(c.container + 1, 0, {})).at == Cursor(c.container + 1, 0, {});
      }
    }
  }

  /**
   * The scan raises `ValueError` only from the last container, when every
   * line from the cursor on is visited, and leaves the visited list cleared.
   */
  lemma {:induction false} ScanRaisesOnlyWhenExhausted(cs: seq<StationContainer>, c: Cursor)
    requires AtLine(cs, c) && Scan(cs, c).error == Some(ExploredAllPaths)
    ensures c.container == |cs| - 1
    ensures forall j :: c.line <= j < |cs[c.container].startingLines| ==> cs[c.container].startingLines[j].index in c.allVisited
    ensures Scan(cs, c).at.allVisited == {}
    decreases |cs| - c.container, |cs[c.container].startingLines| - c.line
  {
    if c.line + 1 < |cs[c.container].startingLines| {
      ScanRaisesOnlyWhenExhausted(cs, c.(line := c.line + 1));
    }
  }

  /** The starting lines from the cursor to the end of the last container. */
  function Ahead(cs: seq<StationContainer>, c: Cursor): nat
  {
    if !AtLine(cs, c) then 0 else Remaining(cs, c.container + 1) + (|cs[c.container].startingLines| - c.line)
  }

  function Remaining(cs: seq<StationContainer>, from: nat): nat
    decreases |cs| - from
  {
    if from >= |cs| then 0 else |cs[from].startingLines| + Remaining(cs, from + 1)
  }

  /**
   * A scan that starts on a visited line moves on: fewer starting lines lie
   * ahead of where it stops than ahead of where it started.
   */
  lemma {:induction false} ScanMovesPastVisited(cs: seq<StationContainer>, c: Cursor)
    requires AtLine(cs, c) && Scan(cs, c).error.None?
    ensures Ahead(cs, Scan(cs, c).at) + (if LineAt(cs, c).index in c.allVisited then 1 else 0) <= Ahead(cs, c)
    decreases |cs| - c.container, |cs[c.container].startingLines| - c.line
  {
    if LineAt(cs, c).index in c.allVisited {
      if c.line + 1 < |cs[c.container].startingLines| {
        ScanMovesPastVisited(cs, c.(line := c.line + 1));
      } else {
        var next := Cursor(c.container + 1, 0, {});
        assert Scan(cs, c) == Scan(cs, next) && Scan(cs, next).at == next;
      }
    }
  }

  /** The connected ends of the starting lines: the points a pass may close a loop at. */
  function LoopKeys(lines: seq<NavigationLine>): (keys: set<Point>)
    ensures forall k :: 0 <= k < |lines| ==> ConnectedCoords(lines[k]) in keys
    ensures forall p :: p in keys ==> exists k :: 0 <= k < |lines| && ConnectedCoords(lines[k]) == p
  {
    if lines == [] then {}
    else
      var init := LoopKeys(lines[..|lines| - 1]);
      assert forall k :: 0 <= k < |lines| - 1 ==> lines[..|lines| - 1][k] == lines[k];
      init + {ConnectedCoords(lines[|lines| - 1])}
  }

  /**
   * The shape of a generated network: a ring from the HV station's joint,
   * closed by a cable, then the HV transformer, at the joint's point and
   * dated as the joint.
   */
  predicate MvNetwork(assets: seq<Asset>)
  {
    && |assets| >= 3
    && assets[0].kind == Joint && assets[0].name == "joint" + HighVoltageTrafoName
    && assets[|assets| - 2].kind == Cable
    && assets[|assets| - 1].kind == Transformer && assets[|assets| - 1].name == HighVoltageTrafoName
    && assets[|assets| - 1].commissioningYear == assets[0].commissioningYear
    && assets[|assets| - 1].at == assets[0].at
  }

  /** A ring that starts at the HV station's joint and is closed by a cable, with the station's transformer beside it. */
  predicate HvRing(assets: seq<Asset>, transformer: Asset)
  {
    && |assets| >= 2 && assets[|assets| - 1].kind == Cable
    && assets[0].kind == Joint && assets[0].name == "joint" + HighVoltageTrafoName
    && transformer.kind == Transformer && transformer.name == HighVoltageTrafoName
    && assets[0].commissioningYear == transformer.commissioningYear && assets[0].at == transformer.at
  }

  lemma HvRingMakesNetwork(assets: seq<Asset>, transformer: Asset)
    requires HvRing(assets, transformer)
    ensures MvNetwork(assets + [transformer])
  {
    var all := assets + [transformer];
    assert all[0] == assets[0] && all[|all| - 2] == assets[|assets| - 1] && all[|all| - 1] == transformer;
  }

  /** The keys of `default_loops_mapping`: the connected end of each starting line. */
  method DefaultLoopKeys(lines: seq<NavigationLine>) returns (keys: set<Point>)
    ensures keys == LoopKeys(lines)
  {
    keys := {};
    for k := 0 to |lines|
      invariant keys == LoopKeys(lines[..k])
    {
      assert lines[..k + 1][..k] == lines[..k];
      keys := keys + {ConnectedCoords(lines[k])};
    }
    assert lines[..|lines|] == lines;
  }

  class MvNetworkBuilder {
    const parser: MvParser
    const box: Box
    /** `all_visited_lines`: the lines earlier passes over the current container visited. */
    var allVisitedLines: set<int>
    /** `starting_lines_containers`, loaded from the parser on first use. */
    var startingLinesContainers: seq<StationContainer>
    var startingLinesContainerIndex: int
    var startingLineIndex: int

    constructor (parser: MvParser, box: Box)
      ensures this.parser == parser && this.box == box
      ensures allVisitedLines == {} && startingLinesContainers == []
      ensures startingLinesContainerIndex == 0 && startingLineIndex == 0
    {
      this.parser := parser;
      this.box := box;
      allVisitedLines := {};
      startingLinesContainers := [];
      startingLinesContainerIndex := 0;
      startingLineIndex := 0;
    }

    /** A pass can run: the parser is valid and every loop point maps to a dated asset. */
    ghost predicate Ready(s: PassState)
      reads s
    {
      ValidMvParser(parser) && forall p :: p in s.loops ==> s.loops[p].commissioningYear.Some?
    }

    /** `_define_next_lines`, with its in-place removals. */
    method DefineNextLines(n: NavigationLine, visited: set<int>)
      returns (direct: seq<NavigationLine>, station: seq<NavigationLine>)
      requires ValidMvParser(parser)
      ensures (direct, station) == NextLines(parser, box, n, visited)
      ensures Fresh(direct, station, visited, |parser.table.lines|)
    {
      direct := GetNextLines(parser.table, n);
      var coords := EndCoords(n);
      station := [];
      if |direct| == 0 {
        station := parser.mvLvStationLinesAt(coords);
        if |station| == 0 {
          station := parser.hvMvStationLinesAt(coords);
        }
        if |direct| == 0 && |station| == 0 {
          station := parser.linesConnectedAt(coords);
        }
      }
      direct := RemoveOutOfBoundsLines(box, direct);
      direct := RemoveDuplicateLines(visited, direct);
      station := RemoveDuplicateLines(visited, station);
    }

    /**
     * `_build_mv_network_recursive`: a visited line gives just the node it
     * was reached from; any other line is built from.
     */
    method BuildRecursive(n: NavigationLine, from: Node, s: PassState) returns (r: Result<seq<Asset>, MvError>)
      requires Ready(s) && 0 <= n.index < |parser.table.lines| && from.obj.kind == Joint
      modifies s
      decreases Unvisited(|parser.table.lines|, s.visited), 4
      ensures Ready(s) && n.index in s.visited && old(s.visited) <= s.visited
      ensures forall p :: p in old(s.loops) ==> p in s.loops && s.loops[p] == old(s.loops)[p]
      ensures old(n.index in s.visited) ==> r == Ok([from.obj]) && s.visited == old(s.visited) && s.loops == old(s.loops)
      ensures r.Ok? ==> RingShaped(r.value, from.obj)
      ensures r.Ok? && old(n.index !in s.visited) ==> r.value != [from.obj]
    {
      if n.index in s.visited {
        return Ok([from.obj]);
      }
      r := BuildUnvisited(n, from, s);
    }

    /**
     * The body of `_build_mv_network_recursive` for a line not visited yet,
     * with the loop's cases corrected (see the findings): single
     * continuations add a joint or a station and move on, several make a
     * branch, and where none is left the run ends.
     */
    method BuildUnvisited(n: NavigationLine, from: Node, s: PassState) returns (r: Result<seq<Asset>, MvError>)
      requires Ready(s) && 0 <= n.index < |parser.table.lines| && from.obj.kind == Joint
      requires n.index !in s.visited
      modifies s
      decreases Unvisited(|parser.table.lines|, s.visited), 3
      ensures Ready(s) && n.index in s.visited && old(s.visited) <= s.visited
      ensures forall p :: p in old(s.loops) ==> p in s.loops && s.loops[p] == old(s.loops)[p]
      ensures r.Ok? ==> r.value == [] || (|r.value| >= 2 && r.value[0] == from.obj && r.value[|r.value| - 1].kind == Cable)
    {
      var size := |parser.table.lines|;
      ghost var bound := Unvisited(size, s.visited);
      var direct, station := StartRun(n, s);
      var current, node, retVal := n, from, [from.obj];
      while |direct| + |station| > 0
        invariant Ready(s) && n.index in s.visited && old(s.visited) <= s.visited
        invariant Unvisited(size, s.visited) < bound
        invariant forall p :: p in old(s.loops) ==> p in s.loops && s.loops[p] == old(s.loops)[p]
        invariant Fresh(direct, station, s.visited, size)
        invariant node.obj.kind == Joint && |retVal| >= 1 && retVal[0] == from.obj
        decreases Unvisited(size, s.visited)
      {
        if CorrectedLoopCase(direct, station) == BranchCase {
          r := Branch(current, node, retVal, direct + station, s, bound);
          return;
        }
        var stepped := Advance(current, node, retVal, direct, station, s);
        if stepped.Err? {
          return Err(stepped.error);
        }
        current, node, retVal, direct, station := stepped.value.0, stepped.value.1, stepped.value.2, stepped.value.3, stepped.value.4;
      }
      r := Finish(current, retVal, s);
    }

    /** A run starts by visiting its line and finding the line's continuations. */
    method StartRun(n: NavigationLine, s: PassState) returns (direct: seq<NavigationLine>, station: seq<NavigationLine>)
      requires Ready(s) && 0 <= n.index < |parser.table.lines| && n.index !in s.visited
      modifies s
      ensures s.visited == old(s.visited) + {n.index} && s.loops == old(s.loops)
      ensures Unvisited(|parser.table.lines|, s.visited) < Unvisited(|parser.table.lines|, old(s.visited))
      ensures Fresh(direct, station, s.visited, |parser.table.lines|)
    {
      VisitShrinks(|parser.table.lines|, s.visited, n.index);
      s.visited := s.visited + {n.index};
      direct, station := DefineNextLines(n, s.visited);
    }

    /**
     * One step along a single continuation: a plain line gets a cable and a
     * joint, a line into a station gets a cable, joints and a transformer;
     * the continuation becomes the current line, is visited, and its own
     * continuations are found.
     */
    method Step(current: NavigationLine, node: Node, retVal: seq<Asset>,
                direct: seq<NavigationLine>, station: seq<NavigationLine>, s: PassState)
      returns (r: Result<(NavigationLine, Node, seq<Asset>, seq<NavigationLine>, seq<NavigationLine>), MvError>)
      requires Ready(s) && Fresh(direct, station, s.visited, |parser.table.lines|)
      requires CorrectedLoopCase(direct, station) == JointCase || CorrectedLoopCase(direct, station) == TransformerCase
      requires node.obj.kind == Joint && |retVal| >= 1 && retVal[0].kind == Joint
      modifies s
      ensures s.loops == old(s.loops) && old(s.visited) <= s.visited
      ensures r.Err? ==> s.visited == old(s.visited)
      ensures var added := WithTransformer(parser.cableType, parser.transformerHouseYear(EndCoords(current)), current, node, retVal);
        && (r.Err? <==> CorrectedLoopCase(direct, station) == TransformerCase && added.Err?)
        && (r.Err? ==> r.error == added.error)
        && (r.Ok? && CorrectedLoopCase(direct, station) == TransformerCase ==>
              r.value.0 == station[0] && added == Ok((r.value.1, r.value.2)))
      ensures r.Ok? ==>
        var (next, node', retVal', direct', station') := r.value;
        && s.visited == old(s.visited) + {next.index}
        && Unvisited(|parser.table.lines|, s.visited) < Unvisited(|parser.table.lines|, old(s.visited))
        && Fresh(direct', station', s.visited, |parser.table.lines|)
        && node'.obj.kind == Joint && |retVal'| > |retVal| && retVal'[0] == retVal[0]
        && (CorrectedLoopCase(direct, station) == JointCase ==> next == direct[0] && (node', retVal') == WithJoint(current, node, retVal))
        && (CorrectedLoopCase(direct, station) == TransformerCase ==> next == station[0] && |retVal'| == |retVal| + 4)
    {
      var next: NavigationLine;
      var node', retVal' := node, retVal;
      if CorrectedLoopCase(direct, station) == JointCase {
        node', retVal' := WithJoint(current, node, retVal).0, WithJoint(current, node, retVal).1;
        next := direct[0];
      } else {
        var added := AddTransformer(current, node, retVal);
        if added.Err? {
          return Err(added.error);
        }
        node', retVal' := added.value.0, added.value.1;
        next := station[0];
      }
      var direct', station' := StartRun(next, s);
      r := Ok((next, node', retVal', direct', station'));
    }

    /** `BuildBranch`, seen from the run that ends in it: only the shape of what it returns. */
    method Branch(current: NavigationLine, node: Node, retVal: seq<Asset>, lines: seq<NavigationLine>,
                  s: PassState, ghost bound: set<int>)
      returns (r: Result<seq<Asset>, MvError>)
      requires Ready(s) && InTable(lines, |parser.table.lines|)
      requires node.obj.kind == Joint && |retVal| >= 1 && retVal[0].kind == Joint
      requires Unvisited(|parser.table.lines|, s.visited) < bound
      modifies s
      decreases bound, 2
      ensures Ready(s) && old(s.visited) <= s.visited
      ensures forall p :: p in old(s.loops) ==> p in s.loops && s.loops[p] == old(s.loops)[p]
      ensures r.Ok? ==> r.value == [] || (|r.value| >= 2 && r.value[0] == retVal[0] && r.value[|r.value| - 1].kind == Cable)
    {
      ghost var marked, descend, added;
      r, marked, descend, added := BuildBranch(current, node, retVal, lines, s, bound);
    }

    /** `Step`, seen from the loop that repeats it: only what the loop's invariant needs. */
    method Advance(current: NavigationLine, node: Node, retVal: seq<Asset>,
                   direct: seq<NavigationLine>, station: seq<NavigationLine>, s: PassState)
      returns (r: Result<(NavigationLine, Node, seq<Asset>, seq<NavigationLine>, seq<NavigationLine>), MvError>)
      requires Ready(s) && Fresh(direct, station, s.visited, |parser.table.lines|)
      requires CorrectedLoopCase(direct, station) == JointCase || CorrectedLoopCase(direct, station) == TransformerCase
      requires node.obj.kind == Joint && |retVal| >= 1 && retVal[0].kind == Joint
      modifies s
      ensures s.loops == old(s.loops) && old(s.visited) <= s.visited
      ensures r.Ok? ==>
        var (next, node', retVal', direct', station') := r.value;
        && Unvisited(|parser.table.lines|, s.visited) < Unvisited(|parser.table.lines|, old(s.visited))
        && Fresh(direct', station', s.visited, |parser.table.lines|)
        && node'.obj.kind == Joint && |retVal'| > |retVal| && retVal'[0] == retVal[0]
    {
      r := Step(current, node, retVal, direct, station, s);
    }

    /**
     * The end of a run with no continuation left: at a loop point the ring
     * is closed with a loop-back cable, elsewhere it is a dead end and the
     * run gives no assets.
     */
    method EndRun(current: NavigationLine, retVal: seq<Asset>, s: PassState) returns (r: Result<seq<Asset>, MvError>)
      requires Ready(s) && |retVal| >= 1 && retVal[0].kind == Joint
      ensures EndCoords(current) !in s.loops ==> r == Ok([])
      ensures EndCoords(current) in s.loops ==> r == WithLoopBack(parser.cableType, current, retVal, s.loops[EndCoords(current)])
      ensures EndCoords(current) in s.loops && r.Ok? ==> |r.value| == |retVal| + 1
      ensures r.Ok? ==> r.value == [] || (|r.value| >= 2 && r.value[0] == retVal[0] && r.value[|r.value| - 1].kind == Cable)
    {
      var coords := EndCoords(current);
      if coords in s.loops {
        r := AddLoopBackCable(current, retVal, s.loops[coords]);
      } else {
        r := Ok([]);
      }
    }

    /** `EndRun`, seen from the run it ends: only the shape of what it returns. */
    method Finish(current: NavigationLine, retVal: seq<Asset>, s: PassState) returns (r: Result<seq<Asset>, MvError>)
      requires Ready(s) && |retVal| >= 1 && retVal[0].kind == Joint
      ensures r.Ok? ==> r.value == [] || (|r.value| >= 2 && r.value[0] == retVal[0] && r.value[|r.value| - 1].kind == Cable)
    {
      r := EndRun(current, retVal, s);
    }

    /** `_add_loop_back_cable`, with the cable types of this builder's parser. */
    method AddLoopBackCable(n: NavigationLine, objs: seq<Asset>, station: Asset) returns (r: Result<seq<Asset>, MvError>)
      requires station.commissioningYear.Some? && |objs| >= 1 && objs[0].kind == Joint
      ensures r == WithLoopBack(parser.cableType, n, objs, station)
      ensures r.Ok? ==> |r.value| == |objs| + 1 && r.value[0] == objs[0] && r.value[|objs|].kind == Cable
    {
      r := WithLoopBack(parser.cableType, n, objs, station);
      if r.Ok? {
        assert RunRetyped(objs, r.value, parser.cableType(Max(station.commissioningYear.value,
          objs[LastDated(objs)].commissioningYear.value)), Max(station.commissioningYear.value,
          objs[LastDated(objs)].commissioningYear.value));
      }
    }

    /** `_add_esdl_node_and_transformer`, with the transformer house's year at the line's open end. */
    method AddTransformer(n: NavigationLine, from: Node, objs: seq<Asset>) returns (r: Result<(Node, seq<Asset>), MvError>)
      requires |objs| >= 1 && objs[0].kind == Joint
      ensures r == WithTransformer(parser.cableType, parser.transformerHouseYear(EndCoords(n)), n, from, objs)
      ensures r.Ok? ==> |r.value.1| == |objs| + 4 && r.value.1[0] == objs[0]
      ensures r.Ok? ==> r.value.0.obj.kind == Joint && r.value.0.obj.commissioningYear.Some?
    {
      r := WithTransformer(parser.cableType, parser.transformerHouseYear(EndCoords(n)), n, from, objs);
      if r.Ok? {
        var year := StationYear(parser.transformerHouseYear(EndCoords(n)), objs).value;
        assert RunRetyped(objs, WithStation(parser.cableType, year, n, from, objs).1, parser.cableType(year), year);
      }
    }

    /**
     * The branch case: a loop point gets a loop-back cable; a new
     * intersection, none of whose continuations is visited, gets a station
     * and becomes a loop point. Unless the loop went back to the starting
     * HV station, each continuation is then built from the current node, and
     * a branch whose continuations add nothing is no ring: its assets are
     * dropped.
     */
    method BuildBranch(current: NavigationLine, node: Node, retVal: seq<Asset>, lines: seq<NavigationLine>,
                       s: PassState, ghost bound: set<int>)
      returns (r: Result<seq<Asset>, MvError>, ghost marked: seq<Asset>, ghost descend: bool, ghost added: seq<Asset>)
      requires Ready(s) && InTable(lines, |parser.table.lines|)
      requires node.obj.kind == Joint && |retVal| >= 1 && retVal[0].kind == Joint
      requires Unvisited(|parser.table.lines|, s.visited) < bound
      modifies s
      decreases bound, 1
      ensures Ready(s) && old(s.visited) <= s.visited
      ensures forall p :: p in old(s.loops) ==> p in s.loops && s.loops[p] == old(s.loops)[p]
      ensures r.Ok? ==> r.value == [] || (|r.value| >= 2 && r.value[0] == retVal[0] && r.value[|r.value| - 1].kind == Cable)
      ensures r.Ok? ==>
        && |marked| >= |retVal| && marked[0] == retVal[0]
        && (descend <==> EndCoords(current) !in old(s.loops)
                         || !Lists.HasSubstring(old(s.loops)[EndCoords(current)].name, HighVoltageTrafoName))
        && (!descend ==> r.value == marked && added == [])
        && (descend ==> r.value == if added == [] then [] else marked + added)
        && (added != [] ==> added[|added| - 1].kind == Cable)
    {
      var m := Mark(current, node, retVal, lines, s);
      if m.Err? {
        return Err(m.error), [], false, [];
      }
      var (from, ret, down) := m.value;
      marked, descend, added := ret, down, [];
      if down {
        var oldLength := |ret|;
        var built := BuildBranches(lines, from, ret, s, bound);
        if built.Err? {
          return built, marked, descend, added;
        }
        ret := built.value;
        added := ret[oldLength..];
        PrefixThenRest(marked, ret);
        if |ret| == oldLength {
          ret := [];
        }
      }
      r := Ok(ret);
    }

    /**
     * The first half of the branch case: what is added at the intersection,
     * the node the branches start from, and whether to descend into them
     * (not after looping back to the starting HV station).
     */
    method MarkIntersection(current: NavigationLine, node: Node, retVal: seq<Asset>, lines: seq<NavigationLine>, s: PassState)
      returns (r: Result<(Node, seq<Asset>, bool), MvError>)
      requires Ready(s) && node.obj.kind == Joint && |retVal| >= 1 && retVal[0].kind == Joint
      modifies s
      ensures Ready(s) && s.visited == old(s.visited)
      ensures forall p :: p in old(s.loops) ==> p in s.loops && s.loops[p] == old(s.loops)[p]
      ensures var coords := EndCoords(current);
        var allUnvisited := AllUnvisited(lines, old(s.visited));
        && r == Marked(parser.cableType, parser.transformerHouseYear(coords), current, node, retVal, allUnvisited, old(s.loops))
        && s.loops == if coords !in old(s.loops) && allUnvisited && r.Ok? then old(s.loops)[coords := r.value.0.obj] else old(s.loops)
    {
      var coords := EndCoords(current);
      if coords in s.loops {
        var station := s.loops[coords];
        var withLoop := AddLoopBackCable(current, retVal, station);
        if withLoop.Err? {
          return Err(withLoop.error);
        }
        r := Ok((node, withLoop.value, !Lists.HasSubstring(station.name, HighVoltageTrafoName)));
      } else {
        var from, ret := node, retVal;
        if AllUnvisited(lines, s.visited) {
          var added := AddTransformer(current, node, retVal);
          if added.Err? {
            return Err(added.error);
          }
          from, ret := added.value.0, added.value.1;
          s.loops := s.loops[coords := from.obj];
        }
        r := Ok((from, ret, true));
      }
    }

    /** `MarkIntersection`, seen from the branch case: only the shape of what it returns. */
    method Mark(current: NavigationLine, node: Node, retVal: seq<Asset>, lines: seq<NavigationLine>, s: PassState)
      returns (r: Result<(Node, seq<Asset>, bool), MvError>)
      requires Ready(s) && node.obj.kind == Joint && |retVal| >= 1 && retVal[0].kind == Joint
      modifies s
      ensures Ready(s) && s.visited == old(s.visited)
      ensures forall p :: p in old(s.loops) ==> p in s.loops && s.loops[p] == old(s.loops)[p]
      ensures r.Ok? ==>
        && r.value.0.obj.kind == Joint && |r.value.1| >= |retVal| && r.value.1[0] == retVal[0]
        && (EndCoords(current) in old(s.loops) ==>
              (r.value.2 <==> !Lists.HasSubstring(old(s.loops)[EndCoords(current)].name, HighVoltageTrafoName)))
        && (EndCoords(current) !in old(s.loops) ==> r.value.2)
        && (!r.value.2 ==> r.value.1[|r.value.1| - 1].kind == Cable)
    {
      r := MarkIntersection(current, node, retVal, lines, s);
      MarkedShape(parser.cableType, parser.transformerHouseYear(EndCoords(current)), current, node, retVal,
                  AllUnvisited(lines, old(s.visited)), old(s.loops));
    }

    /** The `for` loop of the branch case: each continuation's assets, after its first, are appended. */
    method BuildBranches(lines: seq<NavigationLine>, from: Node, ret0: seq<Asset>, s: PassState, ghost bound: set<int>)
      returns (r: Result<seq<Asset>, MvError>)
      requires Ready(s) && InTable(lines, |parser.table.lines|) && from.obj.kind == Joint
      requires Unvisited(|parser.table.lines|, s.visited) < bound
      modifies s
      decreases bound, 0
      ensures Ready(s) && old(s.visited) <= s.visited
      ensures forall p :: p in old(s.loops) ==> p in s.loops && s.loops[p] == old(s.loops)[p]
      ensures r.Ok? ==>
        (r.value == ret0 || (|r.value| > |ret0| && r.value[..|ret0|] == ret0 && r.value[|r.value| - 1].kind == Cable))
    {
      var ret := ret0;
      for k := 0 to |lines|
        invariant Ready(s) && old(s.visited) <= s.visited
        invariant Unvisited(|parser.table.lines|, s.visited) <= Unvisited(|parser.table.lines|, old(s.visited))
        invariant forall p :: p in old(s.loops) ==> p in s.loops && s.loops[p] == old(s.loops)[p]
        invariant ret == ret0 || (|ret| > |ret0| && ret[..|ret0|] == ret0 && ret[|ret| - 1].kind == Cable)
      {
        var newAssets := BuildRecursive(lines[k], from, s);
        if newAssets.Err? {
          return Err(newAssets.error);
        }
        if |newAssets.value| > 1 {
          ret := ret + newAssets.value[1..];
        }
      }
      r := Ok(ret);
    }

    /**
     * `_initialize_starting_parameters`: loads the containers on first use,
     * moves the cursor to the next unvisited starting line and returns it
     * with its container's building year and the loop points of its
     * container's starting lines.
     */
    method InitializeStartingParameters() returns (r: Result<StartingParameters, MvError>)
      modifies this
      ensures startingLinesContainers ==
        if |old(startingLinesContainers)| == 0 then parser.hvMvContainers else old(startingLinesContainers)
      ensures var stop := StartCursor(startingLinesContainers,
                                      Cursor(old(startingLinesContainerIndex), old(startingLineIndex), old(allVisitedLines)));
        && Cursor(startingLinesContainerIndex, startingLineIndex, allVisitedLines) == stop.at
        && (r.Err? <==> stop.error.Some?)
        && (r.Err? ==> r.error == stop.error.value)
        && (r.Ok? ==> AtLine(startingLinesContainers, stop.at) && r.value == StartingParameters(
              LoopKeys(startingLinesContainers[startingLinesContainerIndex].startingLines),
              LineAt(startingLinesContainers, stop.at),
              startingLinesContainers[startingLinesContainerIndex].buildingYear))
    {
      if |startingLinesContainers| == 0 {
        startingLinesContainers := parser.hvMvContainers;
      }
      var cs := startingLinesContainers;
      ghost var start := Cursor(startingLinesContainerIndex, startingLineIndex, allVisitedLines);
      if !(0 <= startingLinesContainerIndex < |cs|) {
        return Err(IndexOutOfRange);
      }
      var container := cs[startingLinesContainerIndex];
      if !(0 <= startingLineIndex < |container.startingLines|) {
        return Err(IndexOutOfRange);
      }
      var line := container.startingLines[startingLineIndex];
      while line.index in allVisitedLines
        invariant startingLinesContainers == cs
        invariant AtLine(cs, Cursor(startingLinesContainerIndex, startingLineIndex, allVisitedLines))
        invariant container == cs[startingLinesContainerIndex] && line == container.startingLines[startingLineIndex]
        invariant Scan(cs, Cursor(startingLinesContainerIndex, startingLineIndex, allVisitedLines)) == StartCursor(cs, start)
        decreases |cs| - startingLinesContainerIndex, |container.startingLines| - startingLineIndex
      {
        startingLineIndex := startingLineIndex + 1;
        if startingLineIndex >= |container.startingLines| {
          allVisitedLines := {};
          if startingLinesContainerIndex + 1 >= |cs| {
            return Err(ExploredAllPaths);
          } else {
            startingLinesContainerIndex := startingLinesContainerIndex + 1;
          }
          startingLineIndex := 0;
          container := cs[startingLinesContainerIndex];
        }
        if startingLineIndex >= |container.startingLines| {
          return Err(IndexOutOfRange);
        }
        line := container.startingLines[startingLineIndex];
      }
      var keys := DefaultLoopKeys(container.startingLines);
      r := Ok(StartingParameters(keys, line, container.buildingYear));
    }

    /** The containers the cursor runs over, loaded or about to be. */
    function Containers(): seq<StationContainer>
      reads this
    {
      if |startingLinesContainers| == 0 then parser.hvMvContainers else startingLinesContainers
    }

    /** The starting lines the passes can still try, plus one when the cursor's line is not tried yet. */
    function Pending(): nat
      reads this
    {
      var c := Cursor(startingLinesContainerIndex, startingLineIndex, allVisitedLines);
      Ahead(Containers(), c) + (if AtLine(Containers(), c) && LineAt(Containers(), c).index !in allVisitedLines then 1 else 0)
    }

    /** The parser is valid and the containers, once loaded, are the parser's. */
    ghost predicate Valid()
      reads this
    {
      ValidMvParser(parser) && (startingLinesContainers == [] || startingLinesContainers == parser.hvMvContainers)
    }

    function CursorNow(): Cursor
      reads this
    {
      Cursor(startingLinesContainerIndex, startingLineIndex, allVisitedLines)
    }

    /**
     * `_initialize_starting_parameters` as one pass of `generate_a_mv_network`
     * calls it: the line it returns lies under the cursor, and fewer starting
     * lines lie ahead of the cursor than the passes could still try before.
     */
    method NextStart() returns (r: Result<StartingParameters, MvError>)
      requires Valid()
      modifies this
      ensures Valid() && Containers() == parser.hvMvContainers
      ensures r.Ok? ==>
        && AtLine(Containers(), CursorNow())
        && LineAt(Containers(), CursorNow()) == r.value.startingLine
        && 0 <= r.value.startingLine.index < |parser.table.lines|
        && Ahead(Containers(), CursorNow()) < old(Pending())
    {
      ghost var before := CursorNow();
      r := InitializeStartingParameters();
      if r.Ok? {
        ScanMovesPastVisited(parser.hvMvContainers, before);
        assert InTable(parser.hvMvContainers[startingLinesContainerIndex].startingLines, |parser.table.lines|);
      }
    }

    /**
     * One pass of `generate_a_mv_network` from a starting line: an HV
     * transformer and its joint at the line's connected end, both dated the
     * container's building year, every loop point mapped to that joint, and
     * the ring built from the line with a fresh visited set. Returns the
     * ring, the transformer and the lines the pass visited.
     */
    method RunPass(params: StartingParameters) returns (r: Result<(seq<Asset>, Asset, set<int>), MvError>)
      requires ValidMvParser(parser) && 0 <= params.startingLine.index < |parser.table.lines|
      ensures r.Ok? ==>
        var (assets, transformer, visited) := r.value;
        && params.startingLine.index in visited
        && transformer == NewTransformer(ConnectedCoords(params.startingLine), HighVoltageTrafoName, params.buildingYear)
        && (assets == [] || HvRing(assets, transformer))
    {
      var coords := ConnectedCoords(params.startingLine);
      var transformer := NewTransformer(coords, HighVoltageTrafoName, params.buildingYear);
      var joint := NewJoint(coords, "joint" + HighVoltageTrafoName, Some(params.buildingYear));
      var s := new PassState(map p | p in params.loopKeys :: joint);
      var built := BuildRecursive(params.startingLine, Node(joint, 0), s);
      if built.Err? {
        return Err(built.error);
      }
      r := Ok((built.value, transformer, s.visited));
    }

    /**
     * `all_visited_lines.extend(visited_lines)`: once the line under the
     * cursor is among them, the cursor's own line no longer counts as
     * pending.
     */
    method RecordVisited(visited: set<int>)
      requires AtLine(Containers(), CursorNow()) && LineAt(Containers(), CursorNow()).index in visited
      modifies this
      ensures allVisitedLines == old(allVisitedLines) + visited
      ensures startingLinesContainers == old(startingLinesContainers)
      ensures startingLinesContainerIndex == old(startingLinesContainerIndex) && startingLineIndex == old(startingLineIndex)
      ensures Pending() == old(Ahead(Containers(), CursorNow()))
    {
      allVisitedLines := allVisitedLines + visited;
    }

    /**
     * `generate_a_mv_network`: passes from successive starting lines until
     * one yields a ring; the network is that ring and then the HV
     * transformer. Each pass adds the lines it visited to
     * `all_visited_lines`, so no starting line is tried twice and the passes
     * end, with a network or with the cursor's error.
     */
    method GenerateAMvNetwork() returns (r: Result<seq<Asset>, MvError>)
      requires Valid()
      modifies this
      ensures Valid()
      ensures r.Ok? ==> MvNetwork(r.value)
    {
      var networkAssets: seq<Asset> := [];
      var transformer: Asset := NewTransformer(Point(0.0, 0.0), HighVoltageTrafoName, 1);
      while |networkAssets| == 0
        invariant Valid()
        invariant networkAssets != [] ==> HvRing(networkAssets, transformer)
        decreases Pending()
      {
        ghost var pending := Pending();
        var params := NextStart();
        if params.Err? {
          return Err(params.error);
        }
        var pass := RunPass(params.value);
        if pass.Err? {
          return Err(pass.error);
        }
        networkAssets, transformer := pass.value.0, pass.value.1;
        RecordVisited(pass.value.2);
      }
      HvRingMakesNetwork(networkAssets, transformer);
      r := Ok(networkAssets + [transformer]);
    }
  }

  // ------------------------------------- a junction of plain cables

  const J0: Point := Point(0.0, 0.0)
  const J1: Point := Point(1.0, 0.0)
  const J2: Point := Point(2.0, 0.0)
  const J3: Point := Point(1.0, 1.0)

  /** Three cables meeting at `J1`, with no station anywhere. */
  function JunctionParser(): MvParser
  {
    MvParser(
      LineTable(
        [Line(J0, J1, 1.0), Line(J1, J2, 1.0), Line(J1, J3, 1.0)],
        (p: Point, r: real) => [],
        (p: Point) => if p == J1 then [0, 1, 2] else if p == J0 then [0] else if p == J2 then [1] else if p == J3 then [2] else []),
      (q: Point) => [],
      (q: Point) => [],
      (q: Point) => [],
      (q: Point) => 1,
      (y: int) => "",
      [])
  }

  const JunctionBox: Box := Box(-10.0, -10.0, 10.0, 10.0)

  function JunctionLine(k: nat): NavigationLine
    requires k < 3
  {
    NavigationLine(JunctionParser().table.lines[k], false, k)
  }

  lemma JunctionParserIsValid()
    ensures ValidMvParser(JunctionParser())
  {
    var t := JunctionParser().table;
    forall p ensures LineIndex.IndicesBelow(t.touching(p), |t.lines|) && StrictlyIncreasing(t.touching(p)) {
    }
  }

  /** The index reports the two other cables at the junction. */
  lemma JunctionCandidates()
    ensures NextCandidates(JunctionParser().table, JunctionLine(0)) == [1, 2]
  {
    var t := JunctionParser().table;
    var n := JunctionLine(0);
    assert EndCoords(n) == J1 && t.touching(J1) == [0, 1, 2];
    var keep := (i: int) => i != n.index;
    assert [0, 1, 2][1..] == [1, 2] && [1, 2][1..] == [2] && [2][1..] == [];
    assert Lists.Filter([2], keep) == [2];
    assert Lists.Filter([1, 2], keep) == [1, 2];
  }

  /** Both other cables start at the junction, so both are direct continuations. */
  lemma JunctionNext()
    ensures ValidMvParser(JunctionParser())
    ensures GetNextLines(JunctionParser().table, JunctionLine(0)) == [JunctionLine(1), JunctionLine(2)]
  {
    JunctionParserIsValid();
    JunctionCandidates();
    var t := JunctionParser().table;
    assert [1, 2][1..] == [2] && [2][1..] == [];
    assert OrientCandidates(t, J1, [2]) == [JunctionLine(2)];
  }

  /** From the first cable, the junction offers the two others as direct continuations and no station line. */
  lemma JunctionContinuations()
    ensures ValidMvParser(JunctionParser())
    ensures NextLines(JunctionParser(), JunctionBox, JunctionLine(0), {0}) == ([JunctionLine(1), JunctionLine(2)], [])
  {
    JunctionNext();
    var both := [JunctionLine(1), JunctionLine(2)];
    Lists.FilterKeepsAll(both, Lists.Negate(OutOfBoundsTest(JunctionBox)));
    Lists.FilterKeepsAll(both, Lists.Negate(VisitedTest({0})));
  }

  /**
   * At the junction the loop as written takes no case while its guard
   * holds: none of its variables changes, so it repeats forever. The
   * corrected loop makes it a branch over both cables.
   */
  lemma AsWrittenJunctionNeverEnds()
    ensures ValidMvParser(JunctionParser())
    ensures var (direct, station) := NextLines(JunctionParser(), JunctionBox, JunctionLine(0), {0});
      && |direct| + |station| > 0
      && AsWrittenLoopCase(direct, station) == NoCase
      && CorrectedLoopCase(direct, station) == BranchCase
  {
    JunctionContinuations();
  }
}
