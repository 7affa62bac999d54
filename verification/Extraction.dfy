/** `internal/annotations/annotations.go`: running the annotation parsers, in the arbitrary order of a
    Go map, and merging what they return into one record. */
module Extraction {
  import opened Results

  /** The kinds of error a parser may return, as the extractor tells them apart. */
  datatype Kind = Validation | IngressContent | AnnotationContent | MissResources | NotSatisfiable | Missing | Other

  /** What one parser does on the Ingress at hand. */
  datatype Outcome<+V> = Outcome(risky: bool, val: Option<V>, err: Option<Kind>)
  {
    /** The extractor gives up. */
    predicate Fails() {
      risky || (err.Some? && err.value !in {Missing, Other})
    }

    /** The value becomes a field of the record. */
    predicate Contributes() {
      err != Some(Missing) && val.Some?
    }
  }

  datatype Error = RiskyAnnotations(name: string) | ParserError(kind: Kind)

  /** The record of annotations, by field name. */
  type Record<V> = map<string, V>

  /** The values that are merged. */
  function Contributions<V>(parsers: map<string, Outcome<V>>): Record<V> {
    map name | name in parsers && parsers[name].Contributes() :: parsers[name].val.value
  }

  predicate NoneFails<V>(parsers: map<string, Outcome<V>>) {
    forall name :: name in parsers ==> !parsers[name].Fails()
  }

  predicate IsErrorOf<V>(parsers: map<string, Outcome<V>>, e: Error) {
    exists name :: name in parsers && parsers[name].Fails() &&
      e == if parsers[name].risky then RiskyAnnotations(name) else ParserError(parsers[name].err.value)
  }

  /** `Extract`, over the parsers in any order at all. */
  method Extract<V>(parsers: map<string, Outcome<V>>, record: Record<V>) returns (r: Result<Record<V>, Error>)
    ensures r.Ok? <==> NoneFails(parsers)
    ensures r.Ok? ==> r.value == record + Contributions(parsers)
    ensures r.Err? ==> IsErrorOf(parsers, r.error)
  {
    var data: Record<V> := map[];
    var todo := parsers.Keys;
    while todo != {}
      invariant todo <= parsers.Keys
      invariant forall name :: name in parsers && name !in todo ==> !parsers[name].Fails()
      invariant data == Contributions(parsers - todo)
      decreases todo
    {
      var name :| name in todo;
      todo := todo - {name};
      var p := parsers[name];
      if p.risky {
        return Err(RiskyAnnotations(name));
      }
      if p.err.Some? {
        if p.err.value in {Validation, IngressContent, AnnotationContent, MissResources, NotSatisfiable} {
          return Err(ParserError(p.err.value));
        }
        if p.err.value == Missing {
          continue;
        }
      }
      if p.val.Some? {
        data := data[name := p.val.value];
      }
    }
    assert parsers - todo == parsers;
    return Ok(record + data);
  }

  /** The loop over one fixed order of the parsers. */
  function ExtractIn<V>(order: seq<string>, parsers: map<string, Outcome<V>>, data: Record<V>)
    : Result<Record<V>, Error>
    requires forall name :: name in order ==> name in parsers
  {
    if order == [] then Ok(data)
    else
      var p := parsers[order[0]];
      if p.risky then Err(RiskyAnnotations(order[0]))
      else if p.Fails() then Err(ParserError(p.err.value))
      else ExtractIn(order[1..], parsers, if p.Contributes() then data[order[0] := p.val.value] else data)
  }

  predicate Enumerates<V>(order: seq<string>, parsers: map<string, Outcome<V>>) {
    && (forall name :: name in order ==> name in parsers)
    && (forall name :: name in parsers ==> name in order)
  }

  /** The parsers that an order names. */
  function Named<V>(order: seq<string>, parsers: map<string, Outcome<V>>): map<string, Outcome<V>> {
    map name | name in parsers && name in order :: parsers[name]
  }

  lemma NamedCons<V>(first: string, rest: seq<string>, parsers: map<string, Outcome<V>>)
    requires first in parsers
    ensures Named([first] + rest, parsers) == Named(rest, parsers)[first := parsers[first]]
  {
  }

  lemma ContributionsPut<V>(parsers: map<string, Outcome<V>>, name: string, p: Outcome<V>, data: Record<V>)
    requires name in parsers ==> parsers[name] == p
    ensures (if p.Contributes() then data[name := p.val.value] else data) + Contributions(parsers) ==
            data + Contributions(parsers[name := p])
    ensures NoneFails(parsers[name := p]) <==> NoneFails(parsers) && !p.Fails()
  {
    var grown := parsers[name := p];
    assert name in grown && grown[name] == p;
    assert forall other :: other in parsers ==> other in grown && grown[other] == parsers[other];
  }

  lemma {:induction false} OrderedResult<V>(order: seq<string>, parsers: map<string, Outcome<V>>, data: Record<V>)
    requires forall name :: name in order ==> name in parsers
    ensures var r := ExtractIn(order, parsers, data);
            && (r.Ok? <==> NoneFails(Named(order, parsers)))
            && (r.Ok? ==> r.value == data + Contributions(Named(order, parsers)))
  {
    if order == [] {
      assert data + Contributions(Named(order, parsers)) == data;
    } else {
      var first, rest := order[0], order[1..];
      var p := parsers[first];
      assert order == [first] + rest;
      NamedCons(first, rest, parsers);
      ContributionsPut(Named(rest, parsers), first, p, data);
      if !p.Fails() {
        OrderedResult(rest, parsers, if p.Contributes() then data[first := p.val.value] else data);
      }
    }
  }

  /** Two orders of the parsers both fail, or both give the same record, in spite of the early
      returns and of the `continue` for a missing annotation. */
  lemma Confluent<V>(a: seq<string>, b: seq<string>, parsers: map<string, Outcome<V>>, record: Record<V>)
    requires Enumerates(a, parsers) && Enumerates(b, parsers)
    ensures var x, y := ExtractIn(a, parsers, record), ExtractIn(b, parsers, record);
            (x.Err? && y.Err?) || x == y
  {
    OrderedResult(a, parsers, record);
    OrderedResult(b, parsers, record);
    assert Named(a, parsers) == parsers && Named(b, parsers) == parsers;
  }

  /** The error itself does depend on the order. */
  lemma ErrorsDependOnOrder<V>()
    ensures var parsers: map<string, Outcome<V>> :=
              map["Weight" := Outcome(false, None, Some(NotSatisfiable)),
                  "AllowList" := Outcome(false, None, Some(AnnotationContent))];
            ExtractIn(["Weight", "AllowList"], parsers, map[]) != ExtractIn(["AllowList", "Weight"], parsers, map[])
  {
  }

  /** What the extractor makes of each kind of error: five kinds end it, a missing annotation drops the
      value, and any other error is passed over and the value kept. A risky annotation always ends it. */
  lemma WhatEachKindDoes<V>(p: Outcome<V>)
    ensures p.Fails() <==>
            p.risky || p.err in {Some(Validation), Some(IngressContent), Some(AnnotationContent), Some(MissResources),
                                 Some(NotSatisfiable)}
    ensures p.err == Some(Missing) ==> !p.Contributes()
    ensures p.err == None || p.err == Some(Other) ==> (p.Contributes() <==> p.val.Some?)
  {
    match p.err
    case None =>
    case Some(kind) =>
      match kind
      case Validation =>
      case IngressContent =>
      case AnnotationContent =>
      case MissResources =>
      case NotSatisfiable =>
      case Missing =>
      case Other =>
  }
}
