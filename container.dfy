/** The part of Nette's ContainerBuilder the extension uses: a table of service
    definitions, kept in the order they were added. */
module Container {
  import opened Wrappers
  import opened Values

  /** InjectExtension::TAG_INJECT. */
  const InjectTag := "inject"

  /** A ServiceDefinition: its factory statement, whether autowiring may pick
      it, its tags with their attributes, and its setup calls in order. */
  datatype Definition = Definition(
    factory: Option<Statement>,
    autowired: bool,
    tags: map<string, bool>,
    setup: seq<Statement>)

  /** What addDefinition registers: no factory yet, autowired, untagged. */
  const Blank := Definition(None, true, map[], [])

  predicate Distinct(names: seq<string>)
  {
    forall i, j :: 0 <= i < j < |names| ==> names[i] != names[j]
  }

  /** The builder's definitions and the order in which they were added. */
  datatype Graph = Graph(defs: map<string, Definition>, order: seq<string>) {

    ghost predicate Valid()
    {
      Distinct(order) && forall n :: n in order <==> n in defs
    }

    /** A definition added under a name not yet taken. */
    function Add(name: string, d: Definition): (g: Graph)
      requires name !in defs
      ensures Valid() ==> g.Valid()
    {
      Graph(defs[name := d], order + [name])
    }

    /** The definition registered under `name` replaced by `d`. */
    function Put(name: string, d: Definition): (g: Graph)
      requires name in defs
      ensures Valid() ==> g.Valid()
    {
      Graph(defs[name := d], order)
    }
  }

  lemma AddThenPut(g: Graph, name: string, d: Definition, e: Definition)
    requires name !in g.defs
    ensures g.Add(name, d).Put(name, e) == g.Add(name, e)
  {
    assert g.defs[name := d][name := e] == g.defs[name := e];
  }

  lemma PutTwice(g: Graph, name: string, d: Definition, e: Definition)
    requires name in g.defs
    ensures g.Put(name, d).Put(name, e) == g.Put(name, e)
  {
    assert g.defs[name := d][name := e] == g.defs[name := e];
  }

  lemma PutSame(g: Graph, name: string)
    requires name in g.defs
    ensures g.Put(name, g.defs[name]) == g
  {
    assert g.defs[name := g.defs[name]] == g.defs;
  }

  /** `sub` is `s` with some elements left out, the rest kept in order. */
  predicate Subsequence(sub: seq<string>, s: seq<string>)
    decreases |s|
  {
    if sub == [] then true
    else if s == [] then false
    else (sub[0] == s[0] && Subsequence(sub[1..], s[1..])) || Subsequence(sub, s[1..])
  }

  /** The names among `names` whose definition carries `tag`, in order. */
  function Tagged(names: seq<string>, defs: map<string, Definition>, tag: string): (r: seq<string>)
    ensures forall n :: n in r <==> n in names && n in defs && tag in defs[n].tags
    ensures Distinct(names) ==> Distinct(r)
    ensures Subsequence(r, names)
  {
    if names == [] then []
    else
      var rest := Tagged(names[1..], defs, tag);
      if names[0] in defs && tag in defs[names[0]].tags then [names[0]] + rest else rest
  }

  /** findByTag: the services carrying `tag`, in the order they were added. */
  function FindByTag(g: Graph, tag: string): seq<string>
  {
    Tagged(g.order, g.defs, tag)
  }

  class ContainerBuilder {
    var defs: map<string, Definition>
    var order: seq<string>
    /** The container parameters (%tempDir%, %debugMode%, ...). */
    const parameters: map<string, Value>

    function State(): Graph
      reads this
    {
      Graph(defs, order)
    }

    ghost predicate Valid()
      reads this
    {
      State().Valid()
    }

    constructor (g: Graph, parameters: map<string, Value>)
      requires g.Valid()
      ensures Valid() && State() == g && this.parameters == parameters
    {
      defs, order := g.defs, g.order;
      this.parameters := parameters;
    }

    /** addDefinition. Nette refuses a name already taken; `added` reports
        which case occurred and the caller stops on a refusal. */
    method AddDefinition(name: string) returns (added: bool)
      requires Valid()
      modifies this
      ensures Valid()
      ensures added == (name !in old(defs))
      ensures State() == if added then old(State()).Add(name, Blank) else old(State())
    {
      added := name !in defs;
      if added {
        defs, order := defs[name := Blank], order + [name];
      }
    }

    /** setFactory(entity, args) on the definition registered under `name`. */
    method SetFactory(name: string, factory: Statement)
      requires Valid() && name in defs
      modifies this
      ensures Valid()
      ensures State() == old(State()).Put(name, old(defs[name]).(factory := Some(factory)))
    {
      defs := defs[name := defs[name].(factory := Some(factory))];
    }

    method SetAutowired(name: string, on: bool)
      requires Valid() && name in defs
      modifies this
      ensures Valid()
      ensures State() == old(State()).Put(name, old(defs[name]).(autowired := on))
    {
      defs := defs[name := defs[name].(autowired := on)];
    }

    /** addTag(tag, attr); setInject(state) is addTag(InjectTag, state). */
    method AddTag(name: string, tag: string, attr: bool)
      requires Valid() && name in defs
      modifies this
      ensures Valid()
      ensures State() == old(State()).Put(name, old(defs[name]).(tags := old(defs[name]).tags[tag := attr]))
    {
      defs := defs[name := defs[name].(tags := defs[name].tags[tag := attr])];
    }

    method AddSetup(name: string, call: Statement)
      requires Valid() && name in defs
      modifies this
      ensures Valid()
      ensures State() == old(State()).Put(name, old(defs[name]).(setup := old(defs[name]).setup + [call]))
    {
      defs := defs[name := defs[name].(setup := defs[name].setup + [call])];
    }
  }
}
