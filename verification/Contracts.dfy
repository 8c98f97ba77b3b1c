/** The values of the herrscher-contracts module, which is not part of this model:
    each is opaque, known only through its JSON encoding. */
module Contracts {
  import opened Common

  type Node(==, !new)
  type Query(==, !new)
  type Subgraph(==, !new)
  type Budget(==, !new)
  type Prompt(==, !new)
  type BackendEvent(==, !new)

  /** A JSON value (RFC 8259); only integers occur as numbers on this wire. */
  datatype Json =
    | Null
    | Bool(b: bool)
    | Num(n: int)
    | Str(s: string)
    | Arr(items: seq<Json>)
    | Obj(fields: map<string, Json>)

  /** The bytes of a payload field: the value they parse to, or None when they are
      empty or are no JSON text. */
  type Payload = Option<Json>

  /** How json.Marshal and json.Unmarshal treat each contracts type. */
  datatype Library = Library(
    encNode: Node -> Option<Json>, decNode: Json -> Option<Node>, zeroNode: Node,
    encQuery: Query -> Option<Json>, decQuery: Json -> Option<Query>, zeroQuery: Query,
    encSubgraph: Subgraph -> Option<Json>, decSubgraph: Json -> Option<Subgraph>, zeroSubgraph: Subgraph,
    encPrompt: Prompt -> Option<Json>, decPrompt: Json -> Option<Prompt>, zeroPrompt: Prompt,
    encEvent: BackendEvent -> Option<Json>, decEvent: Json -> Option<BackendEvent>,
    encBudget: Budget -> Option<Json>, decBudget: Json -> Option<Budget>, budgetText: Budget -> string)

  /** Each type is a struct: it never encodes as null, and decoding what was encoded
      gives the value back. */
  ghost predicate RoundTrips(lib: Library) {
    && (forall x :: lib.encNode(x).Some? ==>
          lib.encNode(x).value != Null && lib.decNode(lib.encNode(x).value) == Some(x))
    && (forall x :: lib.encQuery(x).Some? ==>
          lib.encQuery(x).value != Null && lib.decQuery(lib.encQuery(x).value) == Some(x))
    && (forall x :: lib.encSubgraph(x).Some? ==>
          lib.encSubgraph(x).value != Null && lib.decSubgraph(lib.encSubgraph(x).value) == Some(x))
    && (forall x :: lib.encPrompt(x).Some? ==>
          lib.encPrompt(x).value != Null && lib.decPrompt(lib.encPrompt(x).value) == Some(x))
    && (forall x :: lib.encEvent(x).Some? ==>
          lib.encEvent(x).value != Null && lib.decEvent(lib.encEvent(x).value) == Some(x))
    && (forall x :: lib.encBudget(x).Some? ==>
          lib.encBudget(x).value != Null && lib.decBudget(lib.encBudget(x).value) == Some(x))
  }
}
