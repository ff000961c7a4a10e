/** buildServicesXml of lib/server-code/model/service-descriptor.js: which datatype nodes the walk over
    the type definitions emits, and in what order. */
module ServiceDescriptor {
  import opened Options
  import opened TypeMappings

  datatype Field = Field(name: string, mapping: Mapping)

  datatype Node = ServiceNode(name: string) | DataTypeNode(key: string, fields: seq<Field>)

  predicate Emits(nodes: seq<Node>, i: int, key: string) {
    0 <= i < |nodes| && nodes[i].DataTypeNode? && nodes[i].key == key
  }

  ghost predicate Emitted(nodes: seq<Node>, key: string) {
    exists i :: Emits(nodes, i, key)
  }

  /** The services listed, in their order. */
  function ServiceNames(nodes: seq<Node>): seq<string> {
    if nodes == [] then []
    else
      var last := nodes[|nodes| - 1];
      ServiceNames(nodes[..|nodes| - 1]) + if last.ServiceNode? then [last.name] else []
  }

  lemma ServiceNamesPushed(nodes: seq<Node>, node: Node)
    ensures ServiceNames(nodes + [node]) == ServiceNames(nodes) + if node.ServiceNode? then [node.name] else []
  {
    assert (nodes + [node])[..|nodes|] == nodes;
  }

  function FieldOf(defs: Definitions, p: Property): Field {
    Field(p.name, GetTypeMapping(p.type_, defs))
  }

  function FieldsOf(defs: Definitions, key: string): seq<Field>
    requires key in defs
  {
    var ps := defs[key].properties;
    seq(|ps|, i requires 0 <= i < |ps| => FieldOf(defs, ps[i]))
  }

  /** Each type is emitted once, and only after the types it mentions, cycles apart. */
  ghost predicate InOrder(defs: Definitions, nodes: seq<Node>) {
    && (forall i, j, k | i < j && Emits(nodes, i, k) :: !Emits(nodes, j, k))
    && (forall i, k, m | Emits(nodes, i, k) && Edge(defs, k, m) ::
          (exists j :: j < i && Emits(nodes, j, m)) || Reaches(defs, m, k))
    && (forall i, k | Emits(nodes, i, k) :: k in defs && nodes[i].fields == FieldsOf(defs, k))
  }

  /** `types` holds what was emitted and what is being worked on, all of it needed. */
  ghost predicate Registered(defs: Definitions, services: seq<string>, types: set<string>, nodes: seq<Node>) {
    && (forall k | Emitted(nodes, k) :: k in types)
    && (forall k | k in types :: Known(defs, k) && Needed(defs, services, k))
  }

  /** What was emitted since `before` mentions nothing that is not registered. */
  ghost predicate ClosedSince(defs: Definitions, before: seq<Node>, types: set<string>, nodes: seq<Node>) {
    forall k, m | Emitted(nodes, k) && !Emitted(before, k) && Edge(defs, k, m) :: m in types
  }

  ghost predicate Open(types: set<string>, nodes: seq<Node>, key: string) {
    key in types && !Emitted(nodes, key)
  }

  /** A type that is about to be registered: everything still open leads to it. */
  ghost predicate Wanted(defs: Definitions, services: seq<string>, types: set<string>, nodes: seq<Node>, name: string) {
    Known(defs, name) ==> Needed(defs, services, name) && forall g | Open(types, nodes, g) :: Reaches(defs, g, name)
  }

  /** What a walk does to the state: it adds, and closes what it opened. */
  ghost predicate Grown(
    defs: Definitions, types: set<string>, nodes: seq<Node>, types': set<string>, nodes': seq<Node>)
  {
    && types <= types' && nodes <= nodes'
    && (forall g :: Open(types', nodes', g) <==> Open(types, nodes, g))
    && ClosedSince(defs, nodes, types', nodes')
  }

  lemma EmittedGrows(nodes: seq<Node>, nodes': seq<Node>)
    requires nodes <= nodes'
    ensures forall i, k | Emits(nodes, i, k) :: Emits(nodes', i, k)
    ensures forall k | Emitted(nodes, k) :: Emitted(nodes', k)
  {
    forall k | Emitted(nodes, k) ensures Emitted(nodes', k) {
      var i :| Emits(nodes, i, k);
      assert Emits(nodes', i, k);
    }
  }

  lemma GrownTrans(
    defs: Definitions, t0: set<string>, n0: seq<Node>, t1: set<string>, n1: seq<Node>, t2: set<string>, n2: seq<Node>)
    requires Grown(defs, t0, n0, t1, n1) && Grown(defs, t1, n1, t2, n2)
    ensures Grown(defs, t0, n0, t2, n2)
  {
    EmittedGrows(n0, n1);
    hide Emitted, Edge;
  }

  lemma GrownWanted(
    defs: Definitions, services: seq<string>, t0: set<string>, n0: seq<Node>, t1: set<string>, n1: seq<Node>,
    name: string)
    requires Grown(defs, t0, n0, t1, n1) && Wanted(defs, services, t0, n0, name)
    ensures Wanted(defs, services, t1, n1, name)
  {
    hide Open, Known, Needed, Reaches;
  }

  lemma GrownTypes(defs: Definitions, t0: set<string>, n0: seq<Node>, t1: set<string>, n1: seq<Node>)
    requires Grown(defs, t0, n0, t1, n1)
    ensures t0 <= t1
  {
  }

  /** What a property of an open type names is wanted, however far the walk has come. */
  lemma PropertyWanted(
    defs: Definitions, services: seq<string>, t0: set<string>, n0: seq<Node>, t1: set<string>, n1: seq<Node>,
    key: string, p: Property)
    requires Known(defs, key) && p in defs[key].properties && Grown(defs, t0, n0, t1, n1)
    requires forall m | Edge(defs, key, m) :: Wanted(defs, services, t0, n0, m)
    ensures forall m | Mentions(p.type_, m) :: Wanted(defs, services, t1, n1, m)
  {
    hide Wanted, Mentions, Grown;
    forall m | Mentions(p.type_, m) ensures Wanted(defs, services, t1, n1, m) {
      if Known(defs, m) {
        assert Edge(defs, key, m);
        GrownWanted(defs, services, t0, n0, t1, n1, m);
      } else {
        UnknownWanted(defs, services, t1, n1, m);
      }
    }
  }

  lemma GrownNone(defs: Definitions, types: set<string>, nodes: seq<Node>)
    ensures Grown(defs, types, nodes, types, nodes)
  {
  }

  function Rest(defs: Definitions, types: set<string>): set<string> {
    defs.Keys - types
  }

  lemma RestShrinks(defs: Definitions, a: set<string>, b: set<string>)
    requires a <= b
    ensures |Rest(defs, b)| <= |Rest(defs, a)|
    ensures (exists x :: x in defs && x in b && x !in a) ==> |Rest(defs, b)| < |Rest(defs, a)|
  {
    assert Rest(defs, a) == Rest(defs, b) + (Rest(defs, a) - Rest(defs, b));
    if x :| x in defs && x in b && x !in a {
      assert x in Rest(defs, a) - Rest(defs, b);
    }
  }

  class Builder {
    const definitions: Definitions
    const services: seq<string>
    var types: set<string>
    var nsNode: seq<Node>

    ghost predicate Valid()
      reads this
    {
      InOrder(definitions, nsNode) && Registered(definitions, services, types, nsNode)
    }

    constructor (services: seq<string>, definitions: Definitions)
      ensures this.services == services && this.definitions == definitions
      ensures types == {} && nsNode == [] && Valid()
    {
      this.services, this.definitions := services, definitions;
      types, nsNode := {}, [];
    }

    method RegisterType(name: string)
      requires Valid() && Wanted(definitions, services, types, nsNode, name)
      modifies this
      ensures Valid() && Grown(definitions, old(types), old(nsNode), types, nsNode)
      ensures ServiceNames(nsNode) == ServiceNames(old(nsNode))
      ensures Known(definitions, name) ==> name in types
      decreases |Rest(definitions, types)|, 0
    {
      hide Wanted, InOrder, Registered, Needed, Emitted, ServiceNames;
      ghost var t0, n0 := types, nsNode;
      GrownNone(definitions, t0, n0);
      if name != "" && name in definitions && name !in types {
        types := types + {name};
        RestShrinks(definitions, t0, types);
        OpenedKeeps(definitions, services, t0, n0, name);
        var fields := NodeFields(name);
        EmittedKeeps(definitions, services, t0, n0, types, nsNode, name, fields);
        ServiceNamesPushed(nsNode, DataTypeNode(name, fields));
        nsNode := nsNode + [DataTypeNode(name, fields)];
      }
    }

    method TypedNode(name: string, t: Option<Type>) returns (field: Field)
      requires Valid()
      requires forall m | Mentions(t, m) :: Wanted(definitions, services, types, nsNode, m)
      modifies this
      ensures Valid() && Grown(definitions, old(types), old(nsNode), types, nsNode)
      ensures ServiceNames(nsNode) == ServiceNames(old(nsNode))
      ensures forall m | Mentions(t, m) && Known(definitions, m) :: m in types
      ensures field == Field(name, GetTypeMapping(t, definitions))
      decreases |Rest(definitions, types)|, 1
    {
      hide Wanted, InOrder, Registered, Needed, Emitted, Known, ServiceNames;
      ghost var t0, n0 := types, nsNode;
      var mapping := GetTypeMapping(t, definitions);
      field := Field(name, mapping);
      assert Mentions(t, mapping.type_);
      RegisterType(mapping.type_);
      ghost var t1, n1 := types, nsNode;
      RestShrinks(definitions, t0, t1);
      if mapping.elementType.Some? {
        assert Mentions(t, mapping.elementType.value);
        GrownWanted(definitions, services, t0, n0, t1, n1, mapping.elementType.value);
        RegisterType(mapping.elementType.value);
        GrownTrans(definitions, t0, n0, t1, n1, types, nsNode);
      }
    }

    /** The field nodes of a type that is registered but not emitted yet. */
    method NodeFields(key: string) returns (fields: seq<Field>)
      requires Valid() && key in definitions && Open(types, nsNode, key)
      requires forall m | Edge(definitions, key, m) :: Wanted(definitions, services, types, nsNode, m)
      modifies this
      ensures Valid() && Grown(definitions, old(types), old(nsNode), types, nsNode)
      ensures ServiceNames(nsNode) == ServiceNames(old(nsNode))
      ensures forall m | Edge(definitions, key, m) :: m in types
      ensures fields == FieldsOf(definitions, key)
      decreases |Rest(definitions, types)|, 2
    {
      hide Wanted, InOrder, Registered, Needed, Open, Mentions, Emitted, Known, Grown;
      hide GetTypeMapping, Edge, Rest, FieldOf, ServiceNames;
      ghost var t0, n0 := types, nsNode;
      KeyKnown(definitions, services, types, nsNode, key);
      GrownNone(definitions, t0, n0);
      var properties := definitions[key].properties;
      fields := [];
      for i := 0 to |properties|
        invariant Valid() && Grown(definitions, t0, n0, types, nsNode)
        invariant ServiceNames(nsNode) == ServiceNames(n0)
        invariant forall j, m | 0 <= j < i && Mentions(properties[j].type_, m) && Known(definitions, m) :: m in types
        invariant |fields| == i && forall j | 0 <= j < i :: fields[j] == FieldOf(definitions, properties[j])
      {
        ghost var t1, n1 := types, nsNode;
        GrownTypes(definitions, t0, n0, t1, n1);
        RestShrinks(definitions, t0, t1);
        PropertyWanted(definitions, services, t0, n0, t1, n1, key, properties[i]);
        var field := TypedNode(properties[i].name, properties[i].type_);
        fields := fields + [field];
        FieldIs(definitions, properties[i]);
        GrownTypes(definitions, t1, n1, types, nsNode);
        GrownTrans(definitions, t0, n0, t1, n1, types, nsNode);
      }
      EdgesMentioned(definitions, key, types);
    }

    method AddMethod(m: Method, ghost service: string)
      requires Valid() && (forall g :: !Open(types, nsNode, g))
      requires service in services && service in definitions && m in definitions[service].methods
      modifies this
      ensures Valid() && Grown(definitions, old(types), old(nsNode), types, nsNode)
      ensures ServiceNames(nsNode) == ServiceNames(old(nsNode))
      ensures m.access != "private" ==>
        forall t, n | InSignature(m, t) && Mentions(t, n) && Known(definitions, n) :: n in types
    {
      hide InOrder, Registered, Open, Mentions, Emitted, Known, Wanted, ServiceNames;
      ghost var t0, n0 := types, nsNode;
      GrownNone(definitions, t0, n0);
      if m.access != "private" {
        SignatureWanted(definitions, services, types, nsNode, service, m, m.returnType);
        var node := TypedNode(m.name, m.returnType);
        for i := 0 to |m.params|
          invariant Valid() && Grown(definitions, t0, n0, types, nsNode)
          invariant ServiceNames(nsNode) == ServiceNames(n0)
          invariant forall n | Mentions(m.returnType, n) && Known(definitions, n) :: n in types
          invariant forall j, n | 0 <= j < i && Mentions(m.params[j].type_, n) && Known(definitions, n) :: n in types
        {
          ghost var t1, n1 := types, nsNode;
          assert m.params[i] in m.params;
          NoneOpen(definitions, t0, n0, t1, n1);
          SignatureWanted(definitions, services, types, nsNode, service, m, m.params[i].type_);
          var arg := TypedNode(m.params[i].name, m.params[i].type_);
          GrownTrans(definitions, t0, n0, t1, n1, types, nsNode);
        }
      }
    }

    method AddService(service: string)
      requires Valid() && (forall g :: !Open(types, nsNode, g)) && service in services
      modifies this
      ensures Valid() && Grown(definitions, old(types), old(nsNode), types, nsNode)
      ensures ServiceNames(nsNode) == ServiceNames(old(nsNode)) + [service]
      ensures service in definitions ==> forall m | m in definitions[service].methods && m.access != "private" ::
        forall t, n | InSignature(m, t) && Mentions(t, n) && Known(definitions, n) :: n in types
    {
      hide ServiceNames;
      ghost var t0, n0 := types, nsNode;
      ServicePushed(definitions, services, types, nsNode, service);
      hide InOrder, Registered, Open, Mentions, Emitted, Known, InSignature;
      ServiceNamesPushed(nsNode, ServiceNode(service));
      nsNode := nsNode + [ServiceNode(service)];
      if service in definitions {
        var methods := definitions[service].methods;
        for i := 0 to |methods|
          invariant Valid() && Grown(definitions, t0, n0, types, nsNode)
          invariant ServiceNames(nsNode) == ServiceNames(n0) + [service]
          invariant forall j, t, n | 0 <= j < i && methods[j].access != "private"
                      && InSignature(methods[j], t) && Mentions(t, n) && Known(definitions, n) :: n in types
        {
          ghost var t1, n1 := types, nsNode;
          NoneOpen(definitions, t0, n0, t1, n1);
          AddMethod(methods[i], service);
          GrownTrans(definitions, t0, n0, t1, n1, types, nsNode);
        }
      }
    }

    /** The types emitted are exactly those a public signature leads to, each once, and a type comes
        before one it mentions only when that one leads back to it. */
    method Build()
      requires types == {} && nsNode == []
      modifies this
      ensures forall k :: Emitted(nsNode, k) <==> Needed(definitions, services, k)
      ensures InOrder(definitions, nsNode)
      ensures ServiceNames(nsNode) == services
    {
      NothingYet(definitions, services);
      hide InOrder, Registered, Open, Mentions, Emitted, Known, InSignature;
      GrownNone(definitions, {}, []);
      for i := 0 to |services|
        invariant Valid() && Grown(definitions, {}, [], types, nsNode)
        invariant ServiceNames(nsNode) == services[..i]
        invariant forall j | 0 <= j < i && services[j] in definitions ::
          forall m | m in definitions[services[j]].methods && m.access != "private" ::
            forall t, n | InSignature(m, t) && Mentions(t, n) && Known(definitions, n) :: n in types
      {
        ghost var t1, n1 := types, nsNode;
        NoneOpen(definitions, {}, [], t1, n1);
        AddService(services[i]);
        assert services[..i + 1] == services[..i] + [services[i]];
        GrownTrans(definitions, {}, [], t1, n1, types, nsNode);
      }
      NoneOpen(definitions, {}, [], types, nsNode);
      assert services[..|services|] == services;
      forall k ensures Emitted(nsNode, k) <==> Needed(definitions, services, k) {
        AllEmitted(definitions, services, types, nsNode, k);
      }
    }
  }

  // ----- what the steps keep

  lemma KeyKnown(defs: Definitions, services: seq<string>, types: set<string>, nodes: seq<Node>, key: string)
    requires Registered(defs, services, types, nodes) && Open(types, nodes, key)
    ensures Known(defs, key)
  {
  }

  lemma FieldIs(defs: Definitions, p: Property)
    ensures FieldOf(defs, p) == Field(p.name, GetTypeMapping(p.type_, defs))
  {
  }

  lemma EdgesMentioned(defs: Definitions, key: string, types: set<string>)
    requires key in defs
    requires forall j, m | 0 <= j < |defs[key].properties|
               && Mentions(defs[key].properties[j].type_, m) && Known(defs, m) :: m in types
    ensures forall m | Edge(defs, key, m) :: m in types
  {
    hide Mentions, Known;
    forall m | Edge(defs, key, m) ensures m in types {
      var p :| p in defs[key].properties && Mentions(p.type_, m);
      var j :| 0 <= j < |defs[key].properties| && defs[key].properties[j] == p;
    }
  }

  lemma UnknownWanted(defs: Definitions, services: seq<string>, types: set<string>, nodes: seq<Node>, name: string)
    requires !Known(defs, name)
    ensures Wanted(defs, services, types, nodes, name)
  {
  }

  /** `name` has just been registered: it is open, and everything open leads to what it mentions. */
  lemma OpenedKeeps(defs: Definitions, services: seq<string>, types: set<string>, nodes: seq<Node>, name: string)
    requires InOrder(defs, nodes) && Registered(defs, services, types, nodes) && name !in types
    requires Known(defs, name) && Wanted(defs, services, types, nodes, name)
    ensures Registered(defs, services, types + {name}, nodes) && Open(types + {name}, nodes, name)
    ensures forall m | Edge(defs, name, m) :: Wanted(defs, services, types + {name}, nodes, m)
  {
    hide InOrder, Reaches, Edge, Needed, Emitted;
    assert !Emitted(nodes, name);
    forall m | Edge(defs, name, m) ensures Wanted(defs, services, types + {name}, nodes, m) {
      NeededNext(defs, services, name, m);
      EdgeReaches(defs, name, m);
      forall g | Open(types + {name}, nodes, g) ensures Reaches(defs, g, m) {
        if g != name {
          assert Open(types, nodes, g);
          ReachesNext(defs, g, name, m);
        }
      }
    }
  }

  lemma EmittedOne(nodes: seq<Node>, key: string, fields: seq<Field>)
    ensures var nodes' := nodes + [DataTypeNode(key, fields)];
      && (forall i, k :: Emits(nodes', i, k) <==> Emits(nodes, i, k) || (i == |nodes| && k == key))
      && (forall k :: Emitted(nodes', k) <==> Emitted(nodes, k) || k == key)
  {
    var nodes' := nodes + [DataTypeNode(key, fields)];
    assert forall i, k :: Emits(nodes', i, k) <==> Emits(nodes, i, k) || (i == |nodes| && k == key);
    assert Emits(nodes', |nodes|, key);
    forall k | Emitted(nodes, k) ensures Emitted(nodes', k) {
      var i :| Emits(nodes, i, k);
      assert Emits(nodes', i, k);
    }
  }

  /** `name` is emitted when all it mentions is registered. */
  lemma EmittedKeeps(
    defs: Definitions, services: seq<string>, t0: set<string>, n0: seq<Node>, types: set<string>, nodes: seq<Node>,
    name: string, fields: seq<Field>)
    requires InOrder(defs, nodes) && Registered(defs, services, types, nodes) && Known(defs, name)
    requires Registered(defs, services, t0, n0) && name !in t0 && Wanted(defs, services, t0, n0, name)
    requires Grown(defs, t0 + {name}, n0, types, nodes) && fields == FieldsOf(defs, name)
    requires forall m | Edge(defs, name, m) :: m in types
    ensures var nodes' := nodes + [DataTypeNode(name, fields)];
      && InOrder(defs, nodes') && Registered(defs, services, types, nodes') && Grown(defs, t0, n0, types, nodes')
  {
    EmittedOne(nodes, name, fields);
    EmittedOnce(defs, services, t0, n0, types, nodes, name);
    EmittedOrder(defs, services, t0, n0, types, nodes, name, fields);
    EmittedGrown(defs, t0, n0, types, nodes, name, fields);
    hide InOrder, Grown, Emits, Emitted, Wanted;
  }

  lemma EmittedOnce(
    defs: Definitions, services: seq<string>, t0: set<string>, n0: seq<Node>, types: set<string>, nodes: seq<Node>,
    name: string)
    requires Registered(defs, services, t0, n0) && name !in t0 && Grown(defs, t0 + {name}, n0, types, nodes)
    ensures !Emitted(nodes, name) && name in types
  {
    hide Emitted, ClosedSince;
    assert Open(t0 + {name}, n0, name);
    assert Open(types, nodes, name);
  }

  lemma EmittedOrder(
    defs: Definitions, services: seq<string>, t0: set<string>, n0: seq<Node>, types: set<string>, nodes: seq<Node>,
    name: string, fields: seq<Field>)
    requires InOrder(defs, nodes) && !Emitted(nodes, name) && Known(defs, name) && fields == FieldsOf(defs, name)
    requires Wanted(defs, services, t0, n0, name) && Grown(defs, t0 + {name}, n0, types, nodes)
    requires forall m | Edge(defs, name, m) :: m in types
    ensures InOrder(defs, nodes + [DataTypeNode(name, fields)])
  {
    hide Reaches, Edge, Needed, FieldsOf, ClosedSince;
    EmittedOne(nodes, name, fields);
    var nodes' := nodes + [DataTypeNode(name, fields)];
    forall m | Edge(defs, name, m) ensures (exists j :: j < |nodes| && Emits(nodes', j, m)) || Reaches(defs, m, name) {
      if Emitted(nodes, m) {
        var j :| Emits(nodes, j, m);
        assert Emits(nodes', j, m);
      } else {
        assert Open(types, nodes, m) && Open(t0 + {name}, n0, m);
        if m == name {
          EdgeReaches(defs, name, name);
        } else {
          assert Open(t0, n0, m);
        }
      }
    }
    forall i, k, m | Emits(nodes, i, k) && Edge(defs, k, m)
      ensures (exists j :: j < i && Emits(nodes', j, m)) || Reaches(defs, m, k)
    {
      if j :| j < i && Emits(nodes, j, m) { assert Emits(nodes', j, m); }
    }
  }

  lemma EmittedGrown(
    defs: Definitions, t0: set<string>, n0: seq<Node>, types: set<string>, nodes: seq<Node>,
    name: string, fields: seq<Field>)
    requires Grown(defs, t0 + {name}, n0, types, nodes) && name !in t0
    requires forall m | Edge(defs, name, m) :: m in types
    ensures Grown(defs, t0, n0, types, nodes + [DataTypeNode(name, fields)])
  {
    hide Edge;
    EmittedOne(nodes, name, fields);
    hide Emitted;
    var nodes' := nodes + [DataTypeNode(name, fields)];
    forall g ensures Open(types, nodes', g) <==> Open(t0, n0, g) {
      assert Open(types, nodes, g) <==> Open(t0 + {name}, n0, g);
    }
  }

  lemma NoneOpen(defs: Definitions, t0: set<string>, n0: seq<Node>, t1: set<string>, n1: seq<Node>)
    requires Grown(defs, t0, n0, t1, n1) && forall g :: !Open(t0, n0, g)
    ensures forall g :: !Open(t1, n1, g)
  {
  }

  lemma NothingYet(defs: Definitions, services: seq<string>)
    ensures InOrder(defs, []) && Registered(defs, services, {}, []) && forall g :: !Open({}, [], g)
  {
  }

  lemma SignatureWanted(
    defs: Definitions, services: seq<string>, types: set<string>, nodes: seq<Node>, service: string, m: Method,
    t: Option<Type>)
    requires forall g :: !Open(types, nodes, g)
    requires service in services && service in defs && m in defs[service].methods && m.access != "private"
    requires InSignature(m, t)
    ensures forall n | Mentions(t, n) :: Wanted(defs, services, types, nodes, n)
  {
    hide Mentions, Open, InSignature, Reaches;
    forall n | Mentions(t, n) ensures Wanted(defs, services, types, nodes, n) {
      if Known(defs, n) { assert Public(defs, services, n); }
    }
  }

  lemma ServicePushed(defs: Definitions, services: seq<string>, types: set<string>, nodes: seq<Node>, service: string)
    requires InOrder(defs, nodes) && Registered(defs, services, types, nodes)
    ensures var nodes' := nodes + [ServiceNode(service)];
      InOrder(defs, nodes') && Registered(defs, services, types, nodes') && Grown(defs, types, nodes, types, nodes')
  {
    var nodes' := nodes + [ServiceNode(service)];
    SameEmits(nodes, service);
    SameNodes(nodes, service);
    hide Edge, Reaches, Needed, Emitted, FieldsOf, Emits;
  }

  lemma SameEmits(nodes: seq<Node>, service: string)
    ensures forall i, k :: Emits(nodes + [ServiceNode(service)], i, k) <==> Emits(nodes, i, k)
    ensures forall k :: Emitted(nodes + [ServiceNode(service)], k) <==> Emitted(nodes, k)
  {
    var nodes' := nodes + [ServiceNode(service)];
    assert forall i, k :: Emits(nodes', i, k) <==> Emits(nodes, i, k);
  }

  lemma SameNodes(nodes: seq<Node>, service: string)
    ensures var nodes' := nodes + [ServiceNode(service)];
      forall i, k | Emits(nodes', i, k) :: i < |nodes| && nodes'[i] == nodes[i]
  {
  }

  /** With nothing open, the types emitted are closed under mentions, so they are all that is needed. */
  lemma AllEmitted(defs: Definitions, services: seq<string>, types: set<string>, nodes: seq<Node>, key: string)
    requires Registered(defs, services, types, nodes) && Grown(defs, {}, [], types, nodes)
    requires forall g :: !Open(types, nodes, g)
    requires forall j | 0 <= j < |services| && services[j] in defs ::
      forall m | m in defs[services[j]].methods && m.access != "private" ::
        forall t, n | InSignature(m, t) && Mentions(t, n) && Known(defs, n) :: n in types
    ensures Emitted(nodes, key) <==> Needed(defs, services, key)
  {
    hide Mentions, InSignature, Known, Edge;
    forall k ensures k in types <==> Emitted(nodes, k) { assert !Open(types, nodes, k); }
    assert forall k :: !Emitted([], k);
    forall r | Public(defs, services, r) ensures r in types {
      var s, m, t :| s in services && s in defs && m in defs[s].methods && m.access != "private"
        && InSignature(m, t) && Mentions(t, r);
      var j :| 0 <= j < |services| && services[j] == s;
    }
    hide Emitted, Public;
    if Needed(defs, services, key) && !Public(defs, services, key) {
      var r :| Public(defs, services, r) && Reaches(defs, r, key);
      var path :| Walk(defs, path) && path[0] == r && path[|path| - 1] == key;
      WalkRegistered(defs, types, path, |path| - 1);
    }
  }

  lemma {:induction false} WalkRegistered(defs: Definitions, types: set<string>, path: seq<string>, i: nat)
    requires Walk(defs, path) && path[0] in types && i < |path|
    requires forall k, m | k in types && Edge(defs, k, m) :: m in types
    ensures path[i] in types
  {
    hide Edge;
    if i > 0 {
      WalkRegistered(defs, types, path, i - 1);
      assert Edge(defs, path[i - 1], path[i - 1 + 1]);
    }
  }

  /** In an order the walk may emit, a type that precedes one it mentions lies on a cycle with it. */
  lemma EarlyOnlyOnCycle(defs: Definitions, nodes: seq<Node>, i: nat, j: nat)
    requires InOrder(defs, nodes) && i < j < |nodes| && nodes[i].DataTypeNode? && nodes[j].DataTypeNode?
    requires Edge(defs, nodes[i].key, nodes[j].key)
    ensures Reaches(defs, nodes[j].key, nodes[i].key) && Reaches(defs, nodes[i].key, nodes[j].key)
  {
    hide Edge, Reaches;
    EdgeReaches(defs, nodes[i].key, nodes[j].key);
    assert Emits(nodes, i, nodes[i].key) && Emits(nodes, j, nodes[j].key);
  }
}
