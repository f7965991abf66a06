/** The three shape value objects: each is built once from its constructor
    arguments, exposes them through getters and describes itself as text. */
module Shapes {
  import opened Wire

  /** A shape keeps its constructor arguments as given: the source does not
      check their types, so each field is an arbitrary JSON value.
      The getters (`get_radius`, `get_color`, `get_height`, `get_length`,
      `GetHeight`, `GetBase`, `GetColor`) are the field destructors. */
  datatype Shape =
    | Circle(radius: Json, color: Json)
    | Square(height: Json, length: Json, color: Json)
    | Triangle(height: Json, base: Json, color: Json)

  /** The constructor arguments, in constructor order. */
  function Fields(s: Shape): (f: seq<Json>)
    ensures |f| == if s.Circle? then 2 else 3
    ensures f[0] == (if s.Circle? then s.radius else s.height)
    ensures f[|f| - 1] == s.color
  {
    match s
    case Circle(r, c) => [r, c]
    case Square(h, l, c) => [h, l, c]
    case Triangle(h, b, c) => [h, b, c]
  }

  function VariantName(s: Shape): string {
    match s
    case Circle(_, _) => "Circle"
    case Square(_, _, _) => "Square"
    case Triangle(_, _, _) => "Triangle"
  }

  /** `print_shape`: `shape: `, the variant's name, then its fields in
      constructor order, each formatted with Python's `str`; the text starts
      by naming the variant and ends with the colour. */
  function Describe(s: Shape): (d: string)
    ensures |d| > 7 + |VariantName(s)|
    ensures d[..7 + |VariantName(s)|] == "shape: " + VariantName(s)
    ensures |Show(s.color)| < |d| && d[|d| - |Show(s.color)|..] == Show(s.color)
  {
    TextEnds("shape: " + VariantName(s), FieldsBeforeColor(s), Show(s.color));
    "shape: " + VariantName(s) + FieldsBeforeColor(s) + Show(s.color)
  }

  /** The part of `print_shape` between the variant's name and the colour;
      the three layouts differ (Triangle's has no commas). */
  function FieldsBeforeColor(s: Shape): string {
    match s
    case Circle(r, _) => ", Radius: " + Show(r) + ", color: "
    case Square(h, l, _) => ", Height: " + Show(h) + ", Length: " + Show(l) + ", Color: "
    case Triangle(h, b, _) => ", Height: " + Show(h) + " Base: " + Show(b) + " color: "
  }

  lemma TextEnds(head: string, mid: string, tail: string)
    ensures (head + mid + tail)[..|head|] == head
    ensures (head + mid + tail)[|head + mid + tail| - |tail|..] == tail
  {
  }

  /** Shapes of different variants never print the same text. */
  lemma {:induction false} DescribeTellsVariantsApart(s: Shape, t: Shape)
    requires Describe(s) == Describe(t)
    ensures VariantName(s) == VariantName(t)
  {
    var a, b := Describe(s), Describe(t);
    // the three names already differ in their first letter
    assert a[7] == VariantName(s)[0] && b[7] == VariantName(t)[0];
  }

  /** Python's `str` of a JSON value. */
  function Show(j: Json): string
    decreases j, 0
  {
    match j
    case JNull => "None"
    case JBool(b) => if b then "True" else "False"
    case JInt(i) => IntToDecimal(i)
    case JStr(s) => s
    case JArray(items) => "[" + Join(seq(|items|, k requires 0 <= k < |items| => Repr(items[k]))) + "]"
    case JObject(_) => "{...}"
  }

  /** Python's `repr` of a list element: strings are quoted, the rest as `str`. */
  function Repr(j: Json): string
    decreases j, 1
  {
    if j.JStr? then "'" + j.s + "'" else Show(j)
  }

  function Join(parts: seq<string>): string {
    if |parts| == 0 then ""
    else if |parts| == 1 then parts[0]
    else parts[0] + ", " + Join(parts[1..])
  }

  function IntToDecimal(i: int): string {
    if i < 0 then "-" + NatToDecimal(-i) else NatToDecimal(i)
  }

  function NatToDecimal(n: nat): string
    decreases n
  {
    if n < 10 then [Digit(n)] else NatToDecimal(n / 10) + [Digit(n % 10)]
  }

  function Digit(d: nat): char
    requires d < 10
  {
    "0123456789"[d]
  }
}
