/**
 * `_to_pipelines`: the argument of `save` and `estimate` -- one pipeline, a
 * list of them or a dict of named ones -- as a dict keyed by name.  A
 * pipeline is reduced to the one thing the conversion reads, the
 * identifier of its model.
 */
module Pipelines {
  import opened Wrappers

  /** A trained pipeline, seen through `pipeline.model.__identifier__`. */
  datatype Pipeline = Pipeline(modelIdentifier: string)

  /** The three shapes `pipelines_type` allows. */
  datatype PipelinesArg =
    | One(pipeline: Pipeline)
    | Many(pipelines: seq<Pipeline>)
    | Named(named: map<string, Pipeline>)

  /** The `ValueError` raised when two pipelines share a model identifier. */
  datatype PipelinesError = IdenticalModels

  /** The model identifiers of ps, in order. */
  function Identifiers(ps: seq<Pipeline>): (r: seq<string>)
    ensures |r| == |ps|
    ensures forall i :: 0 <= i < |ps| ==> r[i] == ps[i].modelIdentifier
  {
    if ps == [] then [] else Identifiers(ps[..|ps| - 1]) + [ps[|ps| - 1].modelIdentifier]
  }

  /** `set(names)`. */
  function Elements(names: seq<string>): (r: set<string>)
    ensures forall x :: x in r <==> x in names
  {
    if names == [] then {} else Elements(names[..|names| - 1]) + {names[|names| - 1]}
  }

  /** No name occurs twice: each one is new to the names before it. */
  predicate Distinct(names: seq<string>)
  {
    names == [] || (names[|names| - 1] !in names[..|names| - 1] && Distinct(names[..|names| - 1]))
  }

  /** Distinct means pairwise different. */
  lemma {:induction false} DistinctPairwise(names: seq<string>)
    ensures Distinct(names) <==> forall i, j :: 0 <= i < j < |names| ==> names[i] != names[j]
    decreases |names|
  {
    if names != [] {
      var front, last := names[..|names| - 1], names[|names| - 1];
      DistinctPairwise(front);
      if Distinct(names) {
        forall i, j | 0 <= i < j < |names| ensures names[i] != names[j] {
          assert names[i] == front[i];
          if j < |front| {
            assert names[j] == front[j];
          }
        }
      } else if last in front {
        var i :| 0 <= i < |front| && front[i] == last;
        assert names[i] == names[|names| - 1];
      } else {
        var i, j :| 0 <= i < j < |front| && front[i] == front[j];
        assert names[i] == names[j];
      }
    }
  }

  /** `len(set(names)) == len(names)` exactly when no name repeats. */
  lemma {:induction false} ElementsCard(names: seq<string>)
    ensures |Elements(names)| <= |names|
    ensures |Elements(names)| == |names| <==> Distinct(names)
    decreases |names|
  {
    if names != [] {
      var front, last := names[..|names| - 1], names[|names| - 1];
      ElementsCard(front);
      if last in front {
        assert Elements(front) + {last} == Elements(front);
      }
    }
  }

  /** `dict(zip(names, ps))`: a later pair overwrites an earlier one with the same name. */
  function Zip(names: seq<string>, ps: seq<Pipeline>): (r: map<string, Pipeline>)
    requires |names| == |ps|
    ensures r.Keys == Elements(names)
  {
    if names == [] then map[]
    else Zip(names[..|names| - 1], ps[..|ps| - 1])[names[|names| - 1] := ps[|ps| - 1]]
  }

  /** With distinct names, the zipped dict maps every name to the pipeline in its position. */
  lemma {:induction false} ZipAt(names: seq<string>, ps: seq<Pipeline>, i: nat)
    requires |names| == |ps| && Distinct(names) && i < |names|
    ensures names[i] in Zip(names, ps) && Zip(names, ps)[names[i]] == ps[i]
    decreases |names|
  {
    var front, fps := names[..|names| - 1], ps[..|ps| - 1];
    if i < |front| {
      assert names[i] == front[i] && fps[i] == ps[i];
      ZipAt(front, fps, i);
    }
  }

  /** Zipping pipelines with their own identifiers files each one under its identifier. */
  lemma {:induction false} ZipOwnIdentifiers(ps: seq<Pipeline>)
    ensures forall name :: name in Zip(Identifiers(ps), ps) ==> Zip(Identifiers(ps), ps)[name].modelIdentifier == name
    decreases |ps|
  {
    if ps != [] {
      var front := ps[..|ps| - 1];
      assert Identifiers(ps)[..|ps| - 1] == Identifiers(front);
      ZipOwnIdentifiers(front);
    }
  }

  /** The list branch of `_to_pipelines`: refused when `len(set(names)) != len(pipelines)`, else zipped. */
  function FromList(ps: seq<Pipeline>): (r: Result<map<string, Pipeline>, PipelinesError>)
    ensures r.Ok? ==> forall i :: 0 <= i < |ps| ==> ps[i].modelIdentifier in r.value
    ensures r.Ok? ==> forall name :: name in r.value ==> r.value[name].modelIdentifier == name
  {
    var names := Identifiers(ps);
    ZipOwnIdentifiers(ps);
    if |Elements(names)| != |ps| then Err(IdenticalModels) else Ok(Zip(names, ps))
  }

  /**
   * `_to_pipelines(pipelines)`: a dict unchanged; one pipeline or a list of
   * them keyed by model identifier, or an error when identifiers repeat.
   */
  function ToPipelines(arg: PipelinesArg): (r: Result<map<string, Pipeline>, PipelinesError>)
    ensures arg.Named? ==> r == Ok(arg.named)
    ensures arg.One? ==> r.Ok? && arg.pipeline.modelIdentifier in r.value
    ensures !arg.Named? && r.Ok? ==> forall name :: name in r.value ==> r.value[name].modelIdentifier == name
  {
    match arg
    case Named(named) => Ok(named)
    case One(p) => FromList([p])
    case Many(ps) => FromList(ps)
  }

  /** A dict passes through unchanged. */
  lemma NamedUnchanged(named: map<string, Pipeline>)
    ensures ToPipelines(Named(named)) == Ok(named)
  {
  }

  /** A list is refused exactly when two of its pipelines share a model identifier. */
  lemma ManyRefusedIffRepeat(ps: seq<Pipeline>)
    ensures ToPipelines(Many(ps)).Err? <==> exists i, j :: 0 <= i < j < |ps| && ps[i].modelIdentifier == ps[j].modelIdentifier
  {
    var names := Identifiers(ps);
    ElementsCard(names);
    DistinctPairwise(names);
    if !Distinct(names) {
      var i, j :| 0 <= i < j < |names| && names[i] == names[j];
      assert ps[i].modelIdentifier == ps[j].modelIdentifier;
    }
  }

  /**
   * A list that is accepted becomes one entry per pipeline, keyed by its
   * model identifier, and nothing else.
   */
  lemma ManyKeyedByIdentifier(ps: seq<Pipeline>)
    requires ToPipelines(Many(ps)).Ok?
    ensures var named := ToPipelines(Many(ps)).value;
      && (forall i :: 0 <= i < |ps| ==> ps[i].modelIdentifier in named && named[ps[i].modelIdentifier] == ps[i])
      && (forall name :: name in named <==> exists i :: 0 <= i < |ps| && ps[i].modelIdentifier == name)
  {
    var names := Identifiers(ps);
    ElementsCard(names);
    var named := Zip(names, ps);
    forall i | 0 <= i < |ps| ensures ps[i].modelIdentifier in named && named[ps[i].modelIdentifier] == ps[i] {
      ZipAt(names, ps, i);
    }
    forall name | name in named ensures exists i :: 0 <= i < |ps| && ps[i].modelIdentifier == name {
      var i :| 0 <= i < |names| && names[i] == name;
    }
  }

  /** A single pipeline becomes the dict holding it under its identifier. */
  lemma OneKeyedByIdentifier(p: Pipeline)
    ensures ToPipelines(One(p)) == Ok(map[p.modelIdentifier := p])
  {
    ManyKeyedByIdentifier([p]);
  }
}
