/** The bounded template rewrite `convertHandlebarsTemplateToQuery`: trusted
    SQL blocks are spliced into `obj.query` by the host's template engine,
    pass after pass, as long as a `{{` marker is left and at most five times. */
module Template {
  import opened Base

  /** The substitution values: template variable name to trusted SQL text. */
  type Bindings = map<string, string>

  /** One pass of the host template engine over a query text. Its internals
      (expression evaluation inside `{{ }}`, escaping) are not modelled: every
      property below holds for any pass function. */
  type Subst = (string, Bindings) -> string

  /** The `substVals` argument as JavaScript's `if (substVals)` sees it:
      `undefined`, `null`, `false`, `0` and `""` are falsy; every object,
      including an empty array, is truthy. */
  datatype SubstArg = Falsy | Truthy(bindings: Bindings)

  /** The retry bound of the rewrite loop. */
  const MaxPasses: nat := 5

  /** The text contains the opening marker `{{`. */
  predicate HasMarker(s: string)
  {
    exists i :: 0 <= i < |s| - 1 && s[i] == '{' && s[i + 1] == '{'
  }

  /** A query object: `{query, values}`; the rewrite changes `query` in place. */
  class Descriptor {
    var query: string
    var values: seq<Value>

    constructor (query: string, values: seq<Value>)
      ensures this.query == query && this.values == values
    {
      this.query := query;
      this.values := values;
    }
  }

  /** k passes of the engine, unconditionally. */
  function Iterate(q: string, ctx: Bindings, subst: Subst, k: nat): string
  {
    if k == 0 then q else subst(Iterate(q, ctx, subst, k - 1), ctx)
  }

  /** The rewrite loop with `fuel` passes left. */
  function Expand(q: string, ctx: Bindings, subst: Subst, fuel: nat): string
    decreases fuel
  {
    if fuel == 0 || !HasMarker(q) then q else Expand(subst(q, ctx), ctx, subst, fuel - 1)
  }

  /** How many passes that loop performs. */
  function Passes(q: string, ctx: Bindings, subst: Subst, fuel: nat): nat
    decreases fuel
  {
    if fuel == 0 || !HasMarker(q) then 0 else 1 + Passes(subst(q, ctx), ctx, subst, fuel - 1)
  }

  /** The query text after `convertHandlebarsTemplateToQuery(obj, substVals)`. */
  function Converted(q: string, substVals: SubstArg, subst: Subst): string
  {
    match substVals
    case Falsy => q
    case Truthy(ctx) => Expand(q, ctx, subst, MaxPasses)
  }

  /** Rewrites `obj.query`, leaving `obj.values` alone. */
  method ConvertTemplate(obj: Descriptor, substVals: SubstArg, subst: Subst)
    modifies obj
    ensures obj.values == old(obj.values)
    ensures obj.query == Converted(old(obj.query), substVals, subst)
  {
    if substVals.Truthy? {
      var ctx := substVals.bindings;
      var numSubstTries := 0;
      while numSubstTries < MaxPasses && HasMarker(obj.query)
        invariant 0 <= numSubstTries <= MaxPasses
        invariant obj.values == old(obj.values)
        invariant Expand(obj.query, ctx, subst, MaxPasses - numSubstTries)
               == Expand(old(obj.query), ctx, subst, MaxPasses)
      {
        obj.query := subst(obj.query, ctx);
        numSubstTries := numSubstTries + 1;
      }
    }
  }

  lemma {:induction false} IterateShift(q: string, ctx: Bindings, subst: Subst, k: nat)
    ensures Iterate(subst(q, ctx), ctx, subst, k) == Iterate(q, ctx, subst, k + 1)
  {
    if k > 0 {
      IterateShift(q, ctx, subst, k - 1);
    }
  }

  /** The loop makes at most `fuel` passes; the result is the text after
      exactly that many passes; every text it passed over still had a
      marker; and it stops early only on a text without markers. */
  lemma {:induction false} ExpandStopsAtFirstClean(q: string, ctx: Bindings, subst: Subst, fuel: nat)
    ensures Passes(q, ctx, subst, fuel) <= fuel
    ensures Expand(q, ctx, subst, fuel) == Iterate(q, ctx, subst, Passes(q, ctx, subst, fuel))
    ensures forall j :: 0 <= j < Passes(q, ctx, subst, fuel) ==> HasMarker(Iterate(q, ctx, subst, j))
    ensures Passes(q, ctx, subst, fuel) < fuel ==> !HasMarker(Expand(q, ctx, subst, fuel))
    decreases fuel
  {
    if fuel > 0 && HasMarker(q) {
      var q' := subst(q, ctx);
      var k := Passes(q', ctx, subst, fuel - 1);
      ExpandStopsAtFirstClean(q', ctx, subst, fuel - 1);
      IterateShift(q, ctx, subst, k);
      forall j | 0 <= j < k + 1
        ensures HasMarker(Iterate(q, ctx, subst, j))
      {
        if j > 0 {
          IterateShift(q, ctx, subst, j - 1);
        }
      }
    }
  }

  /** Without a truthy context, or on a query without markers, the rewrite
      changes nothing. */
  lemma ConvertedLeavesQuery(q: string, substVals: SubstArg, subst: Subst)
    requires substVals.Falsy? || !HasMarker(q)
    ensures Converted(q, substVals, subst) == q
  {
  }

  /** The rewrite of `convertHandlebarsTemplateToQuery` in terms of passes:
      some k <= 5 passes, each applied to a text with a marker, and fewer
      than 5 only when no marker is left. */
  lemma ConvertedIsBoundedIteration(q: string, ctx: Bindings, subst: Subst)
    ensures Passes(q, ctx, subst, MaxPasses) <= MaxPasses
    ensures Converted(q, Truthy(ctx), subst) == Iterate(q, ctx, subst, Passes(q, ctx, subst, MaxPasses))
    ensures forall j :: 0 <= j < Passes(q, ctx, subst, MaxPasses) ==> HasMarker(Iterate(q, ctx, subst, j))
    ensures Passes(q, ctx, subst, MaxPasses) < MaxPasses ==> !HasMarker(Converted(q, Truthy(ctx), subst))
  {
    ExpandStopsAtFirstClean(q, ctx, subst, MaxPasses);
  }

  /** A context whose expansion always produces another marker (a block that
      refers to itself) does not loop forever: the loop gives up after
      exactly `fuel` passes and leaves a marker in the text, without error. */
  lemma {:induction false} RunawayExpansionStops(q: string, ctx: Bindings, subst: Subst, fuel: nat)
    requires HasMarker(q)
    requires forall s :: HasMarker(subst(s, ctx))
    ensures Expand(q, ctx, subst, fuel) == Iterate(q, ctx, subst, fuel)
    ensures HasMarker(Expand(q, ctx, subst, fuel))
    decreases fuel
  {
    if fuel > 0 {
      RunawayExpansionStops(subst(q, ctx), ctx, subst, fuel - 1);
      IterateShift(q, ctx, subst, fuel - 1);
    }
  }
}
