/** What the measures of a query mean: plain sums and counts of stored columns over a set of rows. */
module Columns {
  import opened Wrappers
  import opened Generations
  import opened Aggregates
  import opened Maintenance
  import opened Rollup
  import Catalog

  // The summed columns. Tokens are those of single records, and a missing count is none.

  function Input(row: Row): int { Catalog.UncachedInput(row).GetOr(0) }

  function Output(row: Row): int { Catalog.NonReasoningOutput(row).GetOr(0) }

  function CacheRead(row: Row): int { row.cacheRead.GetOr(0) }

  function CacheCreation(row: Row): int { row.cacheCreation.GetOr(0) }

  function Reasoning(row: Row): int { row.reasoning.GetOr(0) }

  /** The sum of a column over some rows. */
  ghost function Sum(gens: Table, rows: set<Id>, column: Row -> int): int
    requires rows <= gens.Keys
  {
    if rows == {} then 0
    else
      var id :| id in rows;
      column(gens[id]) + Sum(gens, rows - {id}, column)
  }

  /** Any row may be taken out first. */
  lemma {:induction false} SumRemove(gens: Table, rows: set<Id>, column: Row -> int, id: Id)
    requires rows <= gens.Keys && id in rows
    ensures Sum(gens, rows, column) == column(gens[id]) + Sum(gens, rows - {id}, column)
  {
    var id0 :| id0 in rows && Sum(gens, rows, column) == column(gens[id0]) + Sum(gens, rows - {id0}, column);
    if id0 == id {
    } else {
      assert rows - {id0} - {id} == rows - {id} - {id0};
      SumRemove(gens, rows - {id0}, column, id);
      SumRemove(gens, rows - {id}, column, id0);
    }
  }

  /** The rows whose cost is known. */
  ghost function WithCost(gens: Table, rows: set<Id>): set<Id>
    requires rows <= gens.Keys
  {
    set id | id in rows && gens[id].cost.Some?
  }

  /** Those among them whose cost comes from one of the sources. */
  ghost function CostsFrom(gens: Table, rows: set<Id>, sources: set<CostSource>): set<Id>
    requires rows <= gens.Keys
  {
    set id | id in rows && gens[id].cost.Some? && gens[id].costSource in sources
  }

  /** The sum of the known costs of some rows. */
  ghost function CostSum(gens: Table, rows: set<Id>): real
    requires rows <= gens.Keys
  {
    if WithCost(gens, rows) == {} then 0.0
    else
      var id :| id in WithCost(gens, rows);
      gens[id].cost.value + CostSum(gens, rows - {id})
  }

  lemma {:induction false} CostSumRemove(gens: Table, rows: set<Id>, id: Id)
    requires rows <= gens.Keys && id in rows
    ensures CostSum(gens, rows) == gens[id].cost.GetOr(0.0) + CostSum(gens, rows - {id})
    decreases rows
  {
    var known := WithCost(gens, rows);
    if known == {} {
      assert id !in known && WithCost(gens, rows - {id}) == {};
    } else {
      var id0 :| id0 in known && CostSum(gens, rows) == gens[id0].cost.value + CostSum(gens, rows - {id0});
      if id0 == id {
      } else {
        assert rows - {id0} - {id} == rows - {id} - {id0};
        CostSumRemove(gens, rows - {id0}, id);
        CostSumRemove(gens, rows - {id}, id0);
      }
    }
  }

  /** Each measure is the sum or the count of its column over the rows. */
  ghost predicate IsTotalOf(m: Measures, gens: Table, rows: set<Id>)
    requires rows <= gens.Keys
  {
    && m.requests == |rows|
    && m.input == Sum(gens, rows, Input) && m.output == Sum(gens, rows, Output)
    && m.cacheRead == Sum(gens, rows, CacheRead) && m.cacheCreation == Sum(gens, rows, CacheCreation)
    && m.reasoning == Sum(gens, rows, Reasoning)
    && m.reported == |CostsFrom(gens, rows, {Harness})|
    && m.estimated == |CostsFrom(gens, rows, {OpenRouter, Manual})|
    && m.free == |CostsFrom(gens, rows, {Free})|
    && m.known == |WithCost(gens, rows)| && m.cost == CostSum(gens, rows)
  }

  lemma WithCostRemove(gens: Table, rows: set<Id>, id: Id)
    requires rows <= gens.Keys && id in rows
    ensures |WithCost(gens, rows)| == |WithCost(gens, rows - {id})| + if gens[id].cost.Some? then 1 else 0
  {
    var with, without := WithCost(gens, rows), WithCost(gens, rows - {id});
    assert with == if id in with then without + {id} else without;
  }

  lemma CostsFromRemove(gens: Table, rows: set<Id>, sources: set<CostSource>, id: Id)
    requires rows <= gens.Keys && id in rows
    ensures |CostsFrom(gens, rows, sources)|
            == |CostsFrom(gens, rows - {id}, sources)|
               + if gens[id].cost.Some? && gens[id].costSource in sources then 1 else 0
  {
    var with, without := CostsFrom(gens, rows, sources), CostsFrom(gens, rows - {id}, sources);
    assert with == if id in with then without + {id} else without;
  }

  lemma CostsOfOneMore(m: Measures, gens: Table, rows: set<Id>, id: Id)
    requires rows <= gens.Keys && id in rows && IsTotalOf(m, gens, rows - {id})
    ensures var sums := FactMeasures(gens[id]).Plus(m);
            && sums.reported == |CostsFrom(gens, rows, {Harness})|
            && sums.estimated == |CostsFrom(gens, rows, {OpenRouter, Manual})|
            && sums.free == |CostsFrom(gens, rows, {Free})|
            && sums.known == |WithCost(gens, rows)| && sums.cost == CostSum(gens, rows)
  {
    CostsFromRemove(gens, rows, {Harness}, id);
    CostsFromRemove(gens, rows, {OpenRouter, Manual}, id);
    CostsFromRemove(gens, rows, {Free}, id);
    WithCostRemove(gens, rows, id);
    CostSumRemove(gens, rows, id);
    hide Sum, CostSum, CostsFrom, WithCost;
  }

  lemma TotalOfOneMore(m: Measures, gens: Table, rows: set<Id>, id: Id)
    requires rows <= gens.Keys && id in rows && IsTotalOf(m, gens, rows - {id})
    ensures IsTotalOf(FactMeasures(gens[id]).Plus(m), gens, rows)
  {
    SumRemove(gens, rows, Input, id);
    SumRemove(gens, rows, Output, id);
    SumRemove(gens, rows, CacheRead, id);
    SumRemove(gens, rows, CacheCreation, id);
    SumRemove(gens, rows, Reasoning, id);
    CostsOfOneMore(m, gens, rows, id);
    hide Sum, CostSum, CostsFrom, WithCost;
  }

  /** Aggregating the facts of any rows totals their columns. */
  lemma {:induction false} FactsTotalColumns(spec: Spec, gens: Table, rows: set<Id>)
    requires rows <= gens.Keys
    ensures IsTotalOf(Fold(Pick(FactsOf(spec, gens), rows)).sums, gens, rows)
  {
    var facts := FactsOf(spec, gens);
    if rows == {} {
      assert Pick(facts, rows).Keys == {};
    } else {
      var id :| id in rows;
      assert Pick(facts, rows)[id] == RowFact(spec, gens[id]).agg;
      assert Pick(facts, rows) - {id} == Pick(facts, rows - {id});
      FoldRemove(Pick(facts, rows), id);
      FactsTotalColumns(spec, gens, rows - {id});
      hide IsTotalOf, Fold;
      TotalOfOneMore(Fold(Pick(facts, rows - {id})).sums, gens, rows, id);
    }
  }
}
