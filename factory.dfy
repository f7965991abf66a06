/** The shape factory: a mutable table from shape type to creator, and
    construction of a shape from a type and a parameter list. */
module Factory {
  import opened Wire
  import opened Shapes

  /** The `ShapeType` enumeration. Its members compare equal to the plain
      integers that arrive in JSON, so they are modelled as integers. */
  const CIRCLE: int := 1
  const SQUARE: int := 2
  const TRIANGLE: int := 3

  lemma ShapeTypesDistinct()
    ensures CIRCLE != SQUARE && SQUARE != TRIANGLE && CIRCLE != TRIANGLE
    ensures CIRCLE == 1 && SQUARE == 2 && TRIANGLE == 3
  {
  }

  /** The creators a table can hold: the three built-in `_create_*` helpers. */
  datatype Creator = CreateCircle | CreateSquare | CreateTriangle

  datatype FactoryError =
    | UnknownShapeType  // the type is not a key of the table
    | NotIterable       // `*params` cannot unpack the parameters
    | WrongArity        // the creator takes a different number of arguments

  /** How many positional arguments a creator takes. */
  function Arity(c: Creator): nat {
    if c == CreateCircle then 2 else 3
  }

  /** The shape variant a creator builds. */
  function Builds(c: Creator, s: Shape): bool {
    match c
    case CreateCircle => s.Circle?
    case CreateSquare => s.Square?
    case CreateTriangle => s.Triangle?
  }

  /** `create_func(*args)`: a creator called with a list of arguments. It
      succeeds exactly when the argument count is its arity, and then builds
      its own variant with the arguments as fields, in order. */
  function Create(c: Creator, args: seq<Json>): (r: Result<Shape, FactoryError>)
    ensures r.Ok? <==> |args| == Arity(c)
    ensures r.Err? ==> r.error == WrongArity
    ensures r.Ok? ==> Builds(c, r.value) && Fields(r.value) == args
  {
    if |args| != Arity(c) then Err(WrongArity)
    else match c
      case CreateCircle => Ok(Circle(args[0], args[1]))
      case CreateSquare => Ok(Square(args[0], args[1], args[2]))
      case CreateTriangle => Ok(Triangle(args[0], args[1], args[2]))
  }

  /** What `*params` unpacks: the items of a list, the one-character strings
      of a string; other values are not iterable (a JSON object is treated
      the same way, see README). */
  function Arguments(params: Json): Option<seq<Json>> {
    match params
    case JArray(items) => Some(items)
    case JStr(s) => Some(seq(|s|, i requires 0 <= i < |s| => JStr([s[i]])))
    case _ => None
  }

  /** The table a new factory starts with. */
  function DefaultTable(): map<int, Creator> {
    map[CIRCLE := CreateCircle, SQUARE := CreateSquare, TRIANGLE := CreateTriangle]
  }

  class ShapeFactory {
    var createFuncs: map<int, Creator>

    constructor ()
      ensures createFuncs.Keys == {CIRCLE, SQUARE, TRIANGLE}
      ensures createFuncs[CIRCLE] == CreateCircle
      ensures createFuncs[SQUARE] == CreateSquare
      ensures createFuncs[TRIANGLE] == CreateTriangle
    {
      createFuncs := DefaultTable();
    }

    /** `register_shape`: binds the key to the creator, every other key keeps its own. */
    method RegisterShape(t: int, creator: Creator)
      modifies this
      ensures t in createFuncs && createFuncs[t] == creator
      ensures forall k :: k != t ==> (k in createFuncs <==> k in old(createFuncs))
      ensures forall k :: k != t && k in createFuncs ==> createFuncs[k] == old(createFuncs)[k]
    {
      createFuncs := createFuncs[t := creator];
    }

    /** `create_shape`: looks the type up (raising when it is missing), then
        calls the creator with the unpacked parameters. */
    function CreateShape(t: Json, params: Json): (r: Result<Shape, FactoryError>)
      reads this
      ensures (IntKey(t).None? || IntKey(t).value !in createFuncs) ==> r == Err(UnknownShapeType)
      ensures r.Ok? <==>
        && IntKey(t).Some? && IntKey(t).value in createFuncs
        && Arguments(params).Some?
        && |Arguments(params).value| == Arity(createFuncs[IntKey(t).value])
      ensures r.Ok? ==>
        && Builds(createFuncs[IntKey(t).value], r.value)
        && Fields(r.value) == Arguments(params).value
    {
      match IntKey(t)
      case None => Err(UnknownShapeType)
      case Some(k) =>
        if k !in createFuncs then Err(UnknownShapeType)
        else match Arguments(params)
          case None => Err(NotIterable)
          case Some(args) => Create(createFuncs[k], args)
    }
  }

  /** With the initial table, a wire type 1, 2 or 3 and a parameter list of
      the matching length build a Circle, Square or Triangle whose getters
      return the parameters. */
  lemma {:induction false} DefaultFactoryBuilds(f: ShapeFactory, t: int, args: seq<Json>)
    requires f.createFuncs == DefaultTable()
    requires t in {CIRCLE, SQUARE, TRIANGLE}
    requires |args| == (if t == CIRCLE then 2 else 3)
    ensures f.CreateShape(JInt(t), JArray(args)).Ok?
    ensures t == CIRCLE ==> f.CreateShape(JInt(t), JArray(args)) == Ok(Circle(args[0], args[1]))
    ensures t == SQUARE ==> f.CreateShape(JInt(t), JArray(args)) == Ok(Square(args[0], args[1], args[2]))
    ensures t == TRIANGLE ==> f.CreateShape(JInt(t), JArray(args)) == Ok(Triangle(args[0], args[1], args[2]))
  {
    var r := f.CreateShape(JInt(t), JArray(args));
    assert IntKey(JInt(t)) == Some(t);
    assert Arguments(JArray(args)) == Some(args);
    assert r == Create(DefaultTable()[t], args);
  }
}
