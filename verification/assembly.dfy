/** The garden assembler of the `GET /gardens/:id` route: a left fold of the
    joined rows into a sparse array indexed by plot id, compacted into the
    garden's plot list, with the garden's own fields read from the first row. */
module Assembly {
  import opened Wrappers
  import opened Ordering
  import opened Sparse
  import opened Entities

  /** Reading `garden_id` of the first row of an empty result throws. */
  datatype AssemblyError = NoRows

  /** `if (row.plot_plant_id)`: `null` and `0` are both falsy. */
  predicate Contributes(row: Row)
  {
    row.plotPlantId.Some? && row.plotPlantId.value != 0
  }

  /** The row adds a plant to plot `k`. */
  predicate Feeds(row: Row, k: nat)
  {
    Contributes(row) && row.plotId == k
  }

  /** The plant summary pushed for a contributing row. */
  function PlantOf(row: Row): Plant
  {
    Plant(row.plantName, row.difficulty, row.wateringFrequency, row.datePlanted, row.lastWatered)
  }

  /** A plot whose scalar fields are those of `row`. */
  function PlotFrom(row: Row, plants: seq<Plant>): Plot
  {
    Plot(row.plotNumber, row.shadeLevel, row.plotType, row.size, row.averageWind, row.plotName, plants)
  }

  /** `plotsDB[id].plants || []`. */
  function PlantsSoFar(slot: Option<Plot>): seq<Plant>
  {
    if slot.Some? then slot.value.plants else []
  }

  /** One call of the `forEach` callback: a contributing row overwrites its
      plot's scalars and appends its plant; any other row changes nothing. */
  function Step(acc: seq<Option<Plot>>, row: Row): (r: seq<Option<Plot>>)
    ensures !Contributes(row) ==> r == acc
    ensures forall k: nat :: k != row.plotId ==> Get(r, k) == Get(acc, k)
    ensures Contributes(row) ==>
      Get(r, row.plotId) == Some(PlotFrom(row, PlantsSoFar(Get(acc, row.plotId)) + [PlantOf(row)]))
  {
    if Contributes(row) then
      var k := row.plotId;
      Store(acc, k, PlotFrom(row, PlantsSoFar(Get(acc, k)) + [PlantOf(row)]))
    else
      acc
  }

  /** `plotsDB` after the `forEach` has visited every row, in order. */
  function Fold(rows: seq<Row>): seq<Option<Plot>>
  {
    if |rows| == 0 then [] else Step(Fold(rows[..|rows| - 1]), rows[|rows| - 1])
  }

  /** The route's assembly: the compacted plots under the first row's garden
      id and layout; no rows at all is a fault, not an empty garden. */
  function Assemble(rows: seq<Row>): (r: Result<Garden, AssemblyError>)
    ensures r.Failure? <==> |rows| == 0
    ensures r.Success? ==> r.value.id == rows[0].gardenId && r.value.layout == rows[0].layout
  {
    var plots := Compact(Fold(rows));
    if |rows| == 0 then Failure(NoRows)
    else Success(Garden(rows[0].gardenId, rows[0].layout, plots))
  }

  // ---------------------------------------------------------------------
  // Reference description, one plot id at a time, independent of the array.

  /** The plot ids some contributing row names. */
  function PlotIds(rows: seq<Row>): (ids: set<nat>)
    ensures forall k :: k in ids <==> exists i :: 0 <= i < |rows| && Feeds(rows[i], k)
  {
    if |rows| == 0 then {}
    else
      var prefix, last := rows[..|rows| - 1], rows[|rows| - 1];
      assert forall i :: 0 <= i < |prefix| ==> prefix[i] == rows[i];
      PlotIds(prefix) + (if Contributes(last) then {last.plotId} else {})
  }

  /** The plants of the rows that feed plot `k`, in row order. */
  function PlantsFor(rows: seq<Row>, k: nat): seq<Plant>
  {
    if |rows| == 0 then []
    else
      var last := rows[|rows| - 1];
      PlantsFor(rows[..|rows| - 1], k) + (if Feeds(last, k) then [PlantOf(last)] else [])
  }

  /** The last row that feeds plot `k`, if any. */
  function LastFor(rows: seq<Row>, k: nat): (r: Option<Row>)
    ensures r.Some? <==> k in PlotIds(rows)
    ensures r.Some? ==> Feeds(r.value, k) && r.value in rows
  {
    if |rows| == 0 then None
    else
      var last := rows[|rows| - 1];
      if Feeds(last, k) then Some(last) else LastFor(rows[..|rows| - 1], k)
  }

  /** What the output should hold for plot `k`: the scalars of its last
      contributing row and the plants of all its contributing rows. */
  function Expected(rows: seq<Row>, k: nat): Option<Plot>
  {
    match LastFor(rows, k)
    case None => None
    case Some(row) => Some(PlotFrom(row, PlantsFor(rows, k)))
  }

  /** The number of rows that contribute a plant. */
  function ContributingCount(rows: seq<Row>): nat
  {
    if |rows| == 0 then 0
    else ContributingCount(rows[..|rows| - 1]) + (if Contributes(rows[|rows| - 1]) then 1 else 0)
  }

  function PlantCount(p: Plot): nat
  {
    |p.plants|
  }

  // ---------------------------------------------------------------------
  // The fold against the reference.

  lemma {:induction false} NoRowNoPlants(rows: seq<Row>, k: nat)
    requires k !in PlotIds(rows)
    ensures PlantsFor(rows, k) == []
  {
    if |rows| > 0 {
      NoRowNoPlants(rows[..|rows| - 1], k);
    }
  }

  /** One step of the fold keeps slot `k` equal to the reference plot. */
  lemma {:induction false} SlotStep(rows: seq<Row>, k: nat)
    requires |rows| > 0
    requires Get(Fold(rows[..|rows| - 1]), k) == Expected(rows[..|rows| - 1], k)
    ensures Get(Fold(rows), k) == Expected(rows, k)
  {
    var prefix, row := rows[..|rows| - 1], rows[|rows| - 1];
    var acc := Fold(prefix);
    if Feeds(row, k) {
      if k !in PlotIds(prefix) {
        NoRowNoPlants(prefix, k);
      }
      assert PlantsSoFar(Get(acc, k)) == PlantsFor(prefix, k);
    } else {
      assert LastFor(rows, k) == LastFor(prefix, k);
      assert PlantsFor(rows, k) == PlantsFor(prefix, k);
    }
  }

  /** After any prefix of rows, index `k` of the sparse array holds exactly the
      reference plot for `k`. */
  lemma {:induction false} FoldInvariant(rows: seq<Row>)
    ensures forall k: nat :: Get(Fold(rows), k) == Expected(rows, k)
  {
    if |rows| > 0 {
      FoldInvariant(rows[..|rows| - 1]);
      forall k: nat
        ensures Get(Fold(rows), k) == Expected(rows, k)
      {
        SlotStep(rows, k);
      }
    }
  }

  /** The array's `length` is one past the largest contributing plot id. */
  lemma {:induction false} FoldLength(rows: seq<Row>)
    ensures forall k :: k in PlotIds(rows) ==> k < |Fold(rows)|
    ensures |Fold(rows)| == 0 || |Fold(rows)| - 1 in PlotIds(rows)
  {
    if |rows| > 0 {
      var prefix := rows[..|rows| - 1];
      FoldLength(prefix);
      assert PlotIds(rows) == PlotIds(prefix) + (if Contributes(rows[|rows| - 1]) then {rows[|rows| - 1].plotId} else {});
    }
  }

  /** Each plant is counted once: the plants across the array number the
      contributing rows. */
  lemma {:induction false} FoldTotal(rows: seq<Row>)
    ensures Total(Fold(rows), PlantCount) == ContributingCount(rows)
  {
    if |rows| > 0 {
      var prefix, row := rows[..|rows| - 1], rows[|rows| - 1];
      FoldTotal(prefix);
      if Contributes(row) {
        var acc, k := Fold(prefix), row.plotId;
        StoreTotal(acc, k, PlotFrom(row, PlantsSoFar(Get(acc, k)) + [PlantOf(row)]), PlantCount);
      }
    }
  }

  // ---------------------------------------------------------------------
  // Properties of the assembled garden.

  /** The garden's plots are the reference plots of the contributing plot ids,
      one per id, in ascending id order. */
  lemma {:induction false} AssembledPlots(rows: seq<Row>)
    requires |rows| > 0
    ensures var plots, ids := Assemble(rows).value.plots, Ascending(PlotIds(rows));
      && StrictlyIncreasing(ids)
      && (forall k :: k in ids <==> exists i :: 0 <= i < |rows| && Feeds(rows[i], k))
      && |plots| == |ids|
      && forall i :: 0 <= i < |ids| ==> Expected(rows, ids[i]) == Some(plots[i])
  {
    var a := Fold(rows);
    FoldInvariant(rows);
    CompactAtIndices(a);
    var ids := Ascending(PlotIds(rows));
    forall k: nat
      ensures k in Indices(a) <==> k in ids
    {
      assert Get(a, k) == Expected(rows, k);
    }
    IncreasingUnique(Indices(a), ids);
  }

  /** The number of plants across all plots is the number of contributing rows. */
  lemma {:induction false} TotalPlants(rows: seq<Row>)
    requires |rows| > 0
    ensures Sum(Assemble(rows).value.plots, PlantCount) == ContributingCount(rows)
  {
    FoldTotal(rows);
    CompactSum(Fold(rows), PlantCount);
  }

  /** A row with a falsy plot-plant id can be removed without changing any
      plot. */
  lemma {:induction false} SkippedRowInert(pre: seq<Row>, row: Row, post: seq<Row>)
    requires !Contributes(row)
    ensures Fold(pre + [row] + post) == Fold(pre + post)
    decreases |post|
  {
    if |post| == 0 {
      assert pre + [row] + post == pre + [row];
      assert (pre + [row])[..|pre|] == pre;
      assert pre + post == pre;
    } else {
      var post', last := post[..|post| - 1], post[|post| - 1];
      SkippedRowInert(pre, row, post');
      assert (pre + [row] + post)[..|pre + [row] + post| - 1] == pre + [row] + post';
      assert (pre + post)[..|pre + post| - 1] == pre + post';
    }
  }

  /** Once the first row is fixed, a skipped row anywhere after it changes
      nothing in the garden. */
  lemma {:induction false} SkippedRowAssemble(pre: seq<Row>, row: Row, post: seq<Row>)
    requires |pre| > 0 && !Contributes(row)
    ensures Assemble(pre + [row] + post) == Assemble(pre + post)
  {
    SkippedRowInert(pre, row, post);
  }

  /** A plot that no contributing row names has no entry in the array and so
      none among the garden's plots. */
  lemma {:induction false} UnplantedPlotOmitted(rows: seq<Row>, k: nat)
    requires forall i :: 0 <= i < |rows| && rows[i].plotId == k ==> !Contributes(rows[i])
    ensures Get(Fold(rows), k) == None
    ensures k !in Ascending(PlotIds(rows))
  {
    FoldInvariant(rows);
  }

  /** Plants of a plot keep the order of the rows: the plants of a
      concatenation are those of the first part followed by those of the
      second. */
  lemma {:induction false} PlantsInRowOrder(a: seq<Row>, b: seq<Row>, k: nat)
    ensures PlantsFor(a + b, k) == PlantsFor(a, k) + PlantsFor(b, k)
    decreases |b|
  {
    if |b| == 0 {
      assert a + b == a;
    } else {
      PlantsInRowOrder(a, b[..|b| - 1], k);
      assert (a + b)[..|a + b| - 1] == a + b[..|b| - 1];
    }
  }

  /** The last contributing row for a plot id is the one `LastFor` finds. */
  lemma {:induction false} LastWriteWins(rows: seq<Row>, i: nat)
    requires i < |rows| && Contributes(rows[i])
    requires forall j :: i < j < |rows| ==> !Feeds(rows[j], rows[i].plotId)
    ensures LastFor(rows, rows[i].plotId) == Some(rows[i])
  {
    if i < |rows| - 1 {
      LastWriteWins(rows[..|rows| - 1], i);
    }
  }

  /** The garden holds one plot for the plot id of a contributing row, and its
      scalar fields are those of the last row that contributes to that plot id. */
  lemma {:induction false} PlotScalarsFromLastRow(rows: seq<Row>, i: nat)
    requires i < |rows| && Contributes(rows[i])
    requires forall j :: i < j < |rows| ==> !Feeds(rows[j], rows[i].plotId)
    ensures var plots, ids := Assemble(rows).value.plots, Ascending(PlotIds(rows));
      && rows[i].plotId in ids
      && |plots| == |ids|
      && forall p :: 0 <= p < |ids| && ids[p] == rows[i].plotId ==>
           plots[p] == PlotFrom(rows[i], PlantsFor(rows, rows[i].plotId))
  {
    var k := rows[i].plotId;
    LastWriteWins(rows, i);
    assert Expected(rows, k) == Some(PlotFrom(rows[i], PlantsFor(rows, k)));
    AssembledPlots(rows);
  }

  /** Two rows of one garden naming plot 5, with plant links 10 and 11, give
      one plot holding both plants in row order. */
  lemma TwoPlantsOnePlot()
    ensures
      var tomato := Row(Num(1), Text("grid"), Some(10), 5, Num(1), Null, Null, Null, Null, Null,
                        Text("Tomato"), Text("easy"), Text("daily"), Text("2024-01-01"), Text("2024-01-10"));
      var basil := Row(Num(1), Text("grid"), Some(11), 5, Num(1), Null, Null, Null, Null, Null,
                       Text("Basil"), Text("easy"), Text("weekly"), Text("2024-01-02"), Text("2024-01-09"));
      Assemble([tomato, basil]) == Success(Garden(Num(1), Text("grid"), [
        Plot(Num(1), Null, Null, Null, Null, Null, [
          Plant(Text("Tomato"), Text("easy"), Text("daily"), Text("2024-01-01"), Text("2024-01-10")),
          Plant(Text("Basil"), Text("easy"), Text("weekly"), Text("2024-01-02"), Text("2024-01-09"))])]))
  {
    var tomato := Row(Num(1), Text("grid"), Some(10), 5, Num(1), Null, Null, Null, Null, Null,
                      Text("Tomato"), Text("easy"), Text("daily"), Text("2024-01-01"), Text("2024-01-10"));
    var basil := Row(Num(1), Text("grid"), Some(11), 5, Num(1), Null, Null, Null, Null, Null,
                     Text("Basil"), Text("easy"), Text("weekly"), Text("2024-01-02"), Text("2024-01-09"));
    var rows := [tomato, basil];
    assert rows[..1] == [tomato];
    assert [tomato][..0] == [];
    var first := Some(PlotFrom(tomato, [PlantOf(tomato)]));
    assert Fold([tomato]) == Step([], tomato);
    assert Get<Plot>([], 5) == None;
    assert PlantsSoFar(Get<Plot>([], 5)) + [PlantOf(tomato)] == [PlantOf(tomato)];
    assert Step([], tomato) == Store([], 5, first.value);
    assert Store<Plot>([], 5, first.value) == [] + Holes(5) + [first];
    var a1 := Holes(5) + [first];
    assert a1 == [] + Holes(5) + [first];
    assert Get(a1, 5) == first;
    var a2 := Fold(rows);
    assert a2 == Step(a1, basil);
    assert |a1| == 6;
    assert PlantsSoFar(Get(a1, 5)) + [PlantOf(basil)] == [PlantOf(tomato), PlantOf(basil)];
    assert a2 == a1[5 := Some(PlotFrom(basil, [PlantOf(tomato), PlantOf(basil)]))];
    assert Compact(Holes<Plot>(5)) == [] by {
      assert Holes<Plot>(5)[..4] == Holes(4);
      assert Holes<Plot>(4)[..3] == Holes(3);
      assert Holes<Plot>(3)[..2] == Holes(2);
      assert Holes<Plot>(2)[..1] == Holes(1);
      assert Holes<Plot>(1)[..0] == Holes(0);
    }
    assert a2[..5] == Holes(5);
    assert Compact(a2) == [PlotFrom(basil, [PlantOf(tomato), PlantOf(basil)])];
  }
}
