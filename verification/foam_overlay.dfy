/**
 * The foam overlay of `src/pages/Garage.jsx` (`FoamOverlay3D`): the RGBA
 * vertex-colour buffer each foam mesh is given, the add-only set of touched
 * vertex indices that pointer moves record in `hiddenVertices` (a state the
 * component never reads), and the inflation of each mesh along its vertex
 * normals. Geometry is reduced to what this logic reads.
 */
module FoamOverlay {
  import opened Optional

  /** A `BufferAttribute`: components per vertex and the flat component array. */
  datatype Attribute = Attribute(itemSize: nat, data: seq<real>)

  /** What the overlay reads of a mesh geometry: its vertex count and its colour attribute, if any. */
  datatype Geometry = Geometry(vertexCount: nat, colour: Option<Attribute>)

  /** The foam alpha 0.7 as a `Float32Array` stores it: the single-precision value nearest 0.7. */
  const FOAM_ALPHA: real := 11744051.0 / 16777216.0

  /** Component `j` of a freshly built foam buffer: alpha for every fourth slot, white elsewhere. */
  function FoamComponent(j: int): real {
    if j % 4 == 3 then FOAM_ALPHA else 1.0
  }

  /** Channel `c` (0 = R, 1 = G, 2 = B, 3 = A) of vertex `v` in a flat RGBA buffer. */
  function Channel(colours: seq<real>, v: nat, c: nat): real
    requires c < 4 && 4 * v + c < |colours|
  {
    colours[4 * v + c]
  }

  /** The render-time loop filling a new `Float32Array(count * 4)` vertex by vertex. */
  method BuildFoamColours(count: nat) returns (colours: seq<real>)
    ensures |colours| == 4 * count
    ensures forall j :: 0 <= j < |colours| ==> colours[j] == FoamComponent(j)
  {
    var a := new real[4 * count](_ => 0.0);
    var i := 0;
    while i < count
      invariant 0 <= i <= count
      invariant forall j :: 0 <= j < 4 * i ==> a[j] == FoamComponent(j)
    {
      a[i * 4 + 0] := 1.0;
      a[i * 4 + 1] := 1.0;
      a[i * 4 + 2] := 1.0;
      a[i * 4 + 3] := FOAM_ALPHA;
      i := i + 1;
    }
    colours := a[..];
  }

  /** In a freshly built buffer every vertex reads R = G = B = 1 and A = 0.7. */
  lemma FoamColoursPerVertex(colours: seq<real>, count: nat)
    requires |colours| == 4 * count
    requires forall j :: 0 <= j < |colours| ==> colours[j] == FoamComponent(j)
    ensures forall v, c :: 0 <= v < count && 0 <= c < 4 ==>
              Channel(colours, v, c) == if c == 3 then FOAM_ALPHA else 1.0
  {
    forall v, c | 0 <= v < count && 0 <= c < 4
      ensures Channel(colours, v, c) == if c == 3 then FOAM_ALPHA else 1.0
    {
      assert (4 * v + c) % 4 == c;
    }
  }

  /**
   * The render-time check: a geometry without a 4-component colour attribute
   * gets a new foam buffer; one that has it is left as it is.
   */
  method EnsureColourAttribute(g: Geometry) returns (r: Geometry)
    ensures r.vertexCount == g.vertexCount
    ensures r.colour.Some? && r.colour.value.itemSize == 4
    ensures g.colour.Some? && g.colour.value.itemSize == 4 ==> r == g
    ensures g.colour.None? || g.colour.value.itemSize != 4 ==>
              |r.colour.value.data| == 4 * g.vertexCount &&
              forall j :: 0 <= j < |r.colour.value.data| ==> r.colour.value.data[j] == FoamComponent(j)
  {
    if g.colour.None? || g.colour.value.itemSize != 4 {
      var colours := BuildFoamColours(g.vertexCount);
      r := g.(colour := Some(Attribute(4, colours)));
    } else {
      r := g;
    }
  }

  /** The pointer handler's own fallback: a missing colour attribute becomes `count * 4` ones. */
  function LazyColourAttribute(g: Geometry): (r: Geometry)
    ensures r.vertexCount == g.vertexCount
    ensures g.colour.Some? ==> r == g
    ensures g.colour.None? ==>
              r.colour.Some? && r.colour.value.itemSize == 4 && |r.colour.value.data| == 4 * g.vertexCount &&
              forall j :: 0 <= j < |r.colour.value.data| ==> r.colour.value.data[j] == 1.0
  {
    if g.colour.None? then g.(colour := Some(Attribute(4, seq(4 * g.vertexCount, _ => 1.0)))) else g
  }

  /** The triangle under the pointer; `a` is its first vertex index. */
  datatype Face = Face(a: nat, b: nat, c: nat)

  /** A pointer-move event: the face hit (if any) and whether an object was hit. */
  datatype PointerMove = PointerMove(face: Option<Face>, hitObject: bool)

  /** The handler goes on past its early return: a face and an object were hit. */
  predicate HitsFace(e: PointerMove) {
    e.face.Some? && e.hitObject
  }

  /**
   * `handlePointerMove`'s update of `hiddenVertices`: record the hit face's
   * first vertex. Nothing reads the recorded set back.
   */
  function RecordTouchedVertex(recorded: set<nat>, e: PointerMove): (r: set<nat>)
    ensures recorded <= r
    ensures HitsFace(e) ==> e.face.value.a in r && r - recorded <= {e.face.value.a}
    ensures !HitsFace(e) ==> r == recorded
  {
    if !HitsFace(e) then recorded else recorded + {e.face.value.a}
  }

  /** Touching the same face twice records nothing more. */
  lemma RecordIdempotent(recorded: set<nat>, e: PointerMove)
    ensures RecordTouchedVertex(RecordTouchedVertex(recorded, e), e) == RecordTouchedVertex(recorded, e)
  {
  }

  /** The recorded set after a sequence of pointer moves. */
  function RecordAll(recorded: set<nat>, moves: seq<PointerMove>): set<nat>
    decreases |moves|
  {
    if |moves| == 0 then recorded else RecordAll(RecordTouchedVertex(recorded, moves[0]), moves[1..])
  }

  /** The first vertices of all faces hit by a sequence of moves. */
  function Touched(moves: seq<PointerMove>): set<nat> {
    set i | 0 <= i < |moves| && HitsFace(moves[i]) :: moves[i].face.value.a
  }

  /** After any sequence of moves the recorded set is the old one plus every touched vertex: it never shrinks and forgets nothing. */
  lemma {:induction false} RecordAllIsUnion(recorded: set<nat>, moves: seq<PointerMove>)
    ensures RecordAll(recorded, moves) == recorded + Touched(moves)
    decreases |moves|
  {
    if |moves| > 0 {
      RecordAllIsUnion(RecordTouchedVertex(recorded, moves[0]), moves[1..]);
      var rest := moves[1..];
      assert Touched(moves) == (if HitsFace(moves[0]) then {moves[0].face.value.a} else {}) + Touched(rest) by {
        forall x | x in Touched(moves)
          ensures x in (if HitsFace(moves[0]) then {moves[0].face.value.a} else {}) + Touched(rest)
        {
          var i :| 0 <= i < |moves| && HitsFace(moves[i]) && moves[i].face.value.a == x;
          if i > 0 {
            assert rest[i - 1] == moves[i];
          }
        }
        forall x | x in Touched(rest) ensures x in Touched(moves) {
          var i :| 0 <= i < |rest| && HitsFace(rest[i]) && rest[i].face.value.a == x;
          assert moves[i + 1] == rest[i];
        }
      }
    }
  }

  datatype Vec3 = Vec3(x: real, y: real, z: real)

  /** How far each vertex moves along its normal. */
  const INFLATION: real := 0.01

  /** Vertex `p` pushed out along normal `n`. */
  function Inflate(p: Vec3, n: Vec3): Vec3 {
    Vec3(p.x + n.x * INFLATION, p.y + n.y * INFLATION, p.z + n.z * INFLATION)
  }

  /** The inflation loop: for each vertex, update X, then Y, then Z in place. */
  method InflatePositions(positions: seq<Vec3>, normals: seq<Vec3>) returns (inflated: seq<Vec3>)
    requires |normals| == |positions|
    ensures |inflated| == |positions|
    ensures forall i :: 0 <= i < |positions| ==> inflated[i] == Inflate(positions[i], normals[i])
  {
    var pos := new Vec3[|positions|](i requires 0 <= i < |positions| => positions[i]);
    var i := 0;
    while i < pos.Length
      invariant 0 <= i <= pos.Length == |positions|
      invariant forall k :: 0 <= k < i ==> pos[k] == Inflate(positions[k], normals[k])
      invariant forall k :: i <= k < pos.Length ==> pos[k] == positions[k]
    {
      pos[i] := pos[i].(x := pos[i].x + normals[i].x * INFLATION);
      pos[i] := pos[i].(y := pos[i].y + normals[i].y * INFLATION);
      pos[i] := pos[i].(z := pos[i].z + normals[i].z * INFLATION);
      i := i + 1;
    }
    inflated := pos[..];
  }
}
