/** The transitive closure of the schemas an API contract refers to. */
module SchemaClosure {

  /** A JSON value, as far as references go; the fields of an object keep their order. */
  datatype Node = Object(fields: seq<Field>) | List(items: seq<Node>) | Text(text: string) | Other
  datatype Field = Field(name: string, value: Node)

  type Schemas = map<string, Node>

  /** `schemas.get(name, {})`. */
  function Schema(schemas: Schemas, name: string): Node {
    if name in schemas then schemas[name] else Object([])
  }

  /** What follows the last slash. */
  function RefName(ref: string): string {
    if '/' !in ref then ref else RefName(ref[1..])
  }

  /** The name has no slash, ends the reference, and a slash comes before it if anything does. */
  lemma {:induction false} RefNameIs(ref: string)
    ensures '/' !in RefName(ref)
    ensures exists i | 0 <= i <= |ref| :: RefName(ref) == ref[i..] && (i == 0 || ref[i - 1] == '/')
  {
    if '/' in ref {
      RefNameIs(ref[1..]);
      var i :| 0 <= i <= |ref| - 1 && RefName(ref) == ref[1..][i..] && (i == 0 || ref[1..][i - 1] == '/');
      assert ref[1..][i..] == ref[i + 1..];
      assert ref == [ref[0]] + ref[1..];
    } else {
      assert ref == ref[0..];
    }
  }

  // ---------------------------------------------------------------- references

  /** Every name some "$ref" inside the node ends in, at any depth. */
  function Refs(node: Node): set<string> {
    match node
    case Object(fields) => RefsOfFields(fields)
    case List(items) => RefsOfItems(items)
    case _ => {}
  }

  function RefsOfField(field: Field): set<string> {
    (if field.name == "$ref" && field.value.Text? then {RefName(field.value.text)} else {}) + Refs(field.value)
  }

  function RefsOfFields(fields: seq<Field>): set<string> {
    if fields == [] then {} else RefsOfField(fields[0]) + RefsOfFields(fields[1..])
  }

  function RefsOfItems(items: seq<Node>): set<string> {
    if items == [] then {} else Refs(items[0]) + RefsOfItems(items[1..])
  }

  lemma FieldStep(fields: seq<Field>, i: nat)
    requires i < |fields|
    ensures RefsOfFields(fields[i..]) == RefsOfField(fields[i]) + RefsOfFields(fields[i + 1..])
  {
    assert fields[i..][0] == fields[i] && fields[i..][1..] == fields[i + 1..];
  }

  lemma ItemStep(items: seq<Node>, i: nat)
    requires i < |items|
    ensures RefsOfItems(items[i..]) == Refs(items[i]) + RefsOfItems(items[i + 1..])
  {
    assert items[i..][0] == items[i] && items[i..][1..] == items[i + 1..];
  }

  /** A chain of references from one of the initial names to a name. */
  predicate Chain(schemas: Schemas, initial: set<string>, path: seq<string>) {
    && path != [] && path[0] in initial
    && forall i | 0 <= i < |path| - 1 :: path[i + 1] in Refs(Schema(schemas, path[i]))
  }

  ghost predicate Reachable(schemas: Schemas, initial: set<string>, name: string) {
    exists path :: Chain(schemas, initial, path) && path[|path| - 1] == name
  }

  /** A set that holds the initial names and what its members refer to. */
  predicate Closed(schemas: Schemas, initial: set<string>, names: set<string>) {
    initial <= names && forall name | name in names :: Refs(Schema(schemas, name)) <= names
  }

  lemma {:induction false} ClosedHoldsChains(schemas: Schemas, initial: set<string>, names: set<string>,
                                             path: seq<string>)
    requires Closed(schemas, initial, names) && Chain(schemas, initial, path)
    ensures path[|path| - 1] in names
  {
    if |path| > 1 {
      var front := path[..|path| - 1];
      assert Chain(schemas, initial, front);
      ClosedHoldsChains(schemas, initial, names, front);
    }
  }

  lemma ReachableGoesOn(schemas: Schemas, initial: set<string>, name: string, next: string)
    requires Reachable(schemas, initial, name) && next in Refs(Schema(schemas, name))
    ensures Reachable(schemas, initial, next)
  {
    var path :| Chain(schemas, initial, path) && path[|path| - 1] == name;
    assert Chain(schemas, initial, path + [next]);
  }

  /** Every name that can ever be referenced. */
  function Universe(schemas: Schemas, initial: set<string>): set<string> {
    initial + set name, ref | name in schemas && ref in Refs(schemas[name]) :: ref
  }

  lemma RefsInUniverse(schemas: Schemas, initial: set<string>, name: string)
    ensures Refs(Schema(schemas, name)) <= Universe(schemas, initial)
  {
  }

  // ---------------------------------------------------------------- the renderer

  class ContractRenderer {
    const schemas: Schemas
    var referenced: set<string>

    constructor (schemas: Schemas)
      ensures this.schemas == schemas && referenced == {}
    {
      this.schemas := schemas;
      referenced := {};
    }

    method NoteRef(ref: string)
      modifies this
      ensures referenced == old(referenced) + {RefName(ref)}
    {
      referenced := referenced + {RefName(ref)};
    }

    method WalkRefs(node: Node)
      modifies this
      ensures referenced == old(referenced) + Refs(node)
      decreases node
    {
      match node {
        case Object(fields) =>
          for i := 0 to |fields|
            invariant referenced + RefsOfFields(fields[i..]) == old(referenced) + RefsOfFields(fields)
          {
            if fields[i].name == "$ref" && fields[i].value.Text? {
              NoteRef(fields[i].value.text);
            }
            WalkRefs(fields[i].value);
            FieldStep(fields, i);
          }
        case List(items) =>
          for i := 0 to |items|
            invariant referenced + RefsOfItems(items[i..]) == old(referenced) + RefsOfItems(items)
          {
            WalkRefs(items[i]);
            ItemStep(items, i);
          }
        case _ =>
      }
    }

    /** Ends on any reference graph, cyclic or not, with exactly the names reachable from those
        referenced at the start; the set being closed grows while it is walked. */
    method ReferencedClosure() returns (done: set<string>)
      modifies this
      ensures done == referenced
      ensures forall name :: name in done <==> Reachable(schemas, old(referenced), name)
    {
      done := {};
      ghost var initial := referenced;
      StartIsReachable(schemas, initial);
      while referenced - done != {}
        invariant ClosureInvariant(schemas, initial, done, referenced)
        decreases |Universe(schemas, initial) - done|
      {
        var pending := referenced - done;
        ghost var before := done;
        while pending != {}
          invariant ClosureInvariant(schemas, initial, done, referenced)
          invariant pending <= referenced - done
          invariant before <= done && (pending != {} || before < done)
          decreases |pending|
        {
          var name :| name in pending;
          StepKeeps(schemas, initial, done, referenced, name);
          PendingShrinks(pending, done, referenced, name, Refs(Schema(schemas, name)));
          WalkRefs(Schema(schemas, name));
          pending := pending - {name};
          done := done + {name};
        }
        Smaller(Universe(schemas, initial), before, done);
      }
      NothingPending(done, referenced);
      DoneIsExact(schemas, initial, done);
    }
  }

  /** What is done was referenced, what is referenced is reachable, and what the done names
      refer to is referenced. */
  ghost predicate ClosureInvariant(schemas: Schemas, initial: set<string>, done: set<string>, referenced: set<string>) {
    && done <= referenced <= Universe(schemas, initial)
    && initial <= referenced
    && (forall name {:trigger Reachable(schemas, initial, name)} | name in referenced ::
        Reachable(schemas, initial, name))
    && (forall name {:trigger Schema(schemas, name)} | name in done :: Refs(Schema(schemas, name)) <= referenced)
  }

  lemma StartIsReachable(schemas: Schemas, initial: set<string>)
    ensures ClosureInvariant(schemas, initial, {}, initial)
  {
    forall name | name in initial
      ensures Reachable(schemas, initial, name)
    {
      assert Chain(schemas, initial, [name]);
    }
  }

  lemma NothingPending(done: set<string>, referenced: set<string>)
    requires done <= referenced && referenced - done == {}
    ensures done == referenced
  {
    forall name | name in referenced
      ensures name in done
    {
      assert name !in done ==> name in referenced - done;
    }
  }

  lemma DoneIsExact(schemas: Schemas, initial: set<string>, done: set<string>)
    requires ClosureInvariant(schemas, initial, done, done)
    ensures forall name :: name in done <==> Reachable(schemas, initial, name)
  {
    forall name | Reachable(schemas, initial, name)
      ensures name in done
    {
      var path :| Chain(schemas, initial, path) && path[|path| - 1] == name;
      ClosedHoldsChains(schemas, initial, done, path);
    }
  }

  lemma PendingShrinks(pending: set<string>, done: set<string>, referenced: set<string>, name: string,
                       more: set<string>)
    requires pending <= referenced - done && name in pending
    ensures pending - {name} <= (referenced + more) - (done + {name})
    ensures |pending - {name}| < |pending|
  {
  }

  lemma StepKeeps(schemas: Schemas, initial: set<string>, done: set<string>, referenced: set<string>, name: string)
    requires ClosureInvariant(schemas, initial, done, referenced) && name in referenced
    ensures ClosureInvariant(schemas, initial, done + {name}, referenced + Refs(Schema(schemas, name)))
  {
    RefsInUniverse(schemas, initial, name);
    forall next | next in Refs(Schema(schemas, name))
      ensures Reachable(schemas, initial, next)
    {
      ReachableGoesOn(schemas, initial, name, next);
    }
  }

  lemma Smaller(universe: set<string>, before: set<string>, done: set<string>)
    requires before < done <= universe
    ensures |universe - done| < |universe - before|
  {
    assert universe - done < universe - before by {
      var x :| x in done && x !in before;
      assert x in universe - before;
    }
    SubsetIsSmaller(universe - done, universe - before);
  }

  lemma SubsetIsSmaller(a: set<string>, b: set<string>)
    requires a < b
    ensures |a| < |b|
  {
    var x :| x in b && x !in a;
    assert a <= b - {x};
    SubsetIsNoLarger(a, b - {x});
  }

  lemma {:induction false} SubsetIsNoLarger(a: set<string>, b: set<string>)
    requires a <= b
    ensures |a| <= |b|
  {
    if a != {} {
      var x :| x in a;
      SubsetIsNoLarger(a - {x}, b - {x});
    }
  }
}
