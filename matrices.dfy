/**
 * Vectors and 4x4 matrices as the renderer and the model loader use them.
 *
 * Two views of a matrix are kept apart:
 *  - `Mat`, a transform built by composition (glm::translate, glm::rotate,
 *    glm::scale and operator*). It is the ordered product of its factors, so
 *    `Mul` is concatenation and `Identity` is the empty product. The facts
 *    proved about it are about which factors are composed and in what order;
 *    they carry over to exact 4x4 arithmetic, where the product is associative,
 *    but not to glm's floating-point product, which is not, and no numeric
 *    identity is claimed.
 *  - `Grid`, the sixteen stored entries of one matrix, used where the loader
 *    copies an Assimp matrix into a glm matrix entry by entry.
 */
module Matrices {

  /** glm::vec3 with real components (floating-point rounding is not modelled). */
  datatype Vec3 = Vec3(x: real, y: real, z: real)

  function Neg(v: Vec3): (r: Vec3)
    ensures Add(v, r) == Vec3(0.0, 0.0, 0.0)
  {
    Vec3(-v.x, -v.y, -v.z)
  }

  function Add(a: Vec3, b: Vec3): Vec3 {
    Vec3(a.x + b.x, a.y + b.y, a.z + b.z)
  }

  function Scaled(v: Vec3, k: real): Vec3 {
    Vec3(v.x * k, v.y * k, v.z * k)
  }

  const XAxis: Vec3 := Vec3(1.0, 0.0, 0.0)
  const YAxis: Vec3 := Vec3(0.0, 1.0, 0.0)
  const ZAxis: Vec3 := Vec3(0.0, 0.0, 1.0)

  /** One elementary transform as glm builds it. */
  datatype Factor =
    | Translate(offset: Vec3)
    | Rotate(angle: real, axis: Vec3)
    | Scale(factors: Vec3)

  /** A transform as the ordered product of its factors, leftmost first. */
  type Mat = seq<Factor>

  /** glm::mat4(1.0) */
  const Identity: Mat := []

  /** Matrix product `a * b`: `b` is applied first to a point, then `a`. */
  function Mul(a: Mat, b: Mat): Mat {
    a + b
  }

  /** glm::translate(v) */
  function Translation(v: Vec3): Mat {
    [Translate(v)]
  }

  /** glm::rotate(angle, axis) */
  function Rotation(angle: real, axis: Vec3): Mat {
    [Rotate(angle, axis)]
  }

  /** glm::scale(v) */
  function Scaling(v: Vec3): Mat {
    [Scale(v)]
  }

  // ---------------------------------------------------------------------------
  // Stored entries

  /** Sixteen reals arranged as four vectors of four. */
  type Grid = g: seq<seq<real>> | |g| == 4 && |g[0]| == 4 && |g[1]| == 4 && |g[2]| == 4 && |g[3]| == 4
    witness [[0.0, 0.0, 0.0, 0.0], [0.0, 0.0, 0.0, 0.0], [0.0, 0.0, 0.0, 0.0], [0.0, 0.0, 0.0, 0.0]]

  /** aiMatrix4x4 stores rows: rows[r][c] is the field named by row letter r (a..d) and column digit c+1. */
  datatype AiMatrix4x4 = AiMatrix4x4(rows: Grid)

  /** glm::mat4 stores columns: columns[c][r] is `m[c][r]`. */
  datatype GlmMat4 = GlmMat4(columns: Grid)

  /** The stored grid with rows and columns swapped. */
  function Transpose(g: Grid): Grid {
    [[g[0][0], g[1][0], g[2][0], g[3][0]],
     [g[0][1], g[1][1], g[2][1], g[3][1]],
     [g[0][2], g[1][2], g[2][2], g[3][2]],
     [g[0][3], g[1][3], g[2][3], g[3][3]]]
  }

  /** Swapping twice gives back the grid. */
  lemma TransposeTwice(g: Grid)
    ensures Transpose(Transpose(g)) == g
  {
    var t := Transpose(Transpose(g));
    forall i | 0 <= i < 4
      ensures t[i] == g[i]
    {
      assert forall j | 0 <= j < 4 :: t[i][j] == g[i][j];
    }
  }

  /**
   * aiMatrix4x4ToGlm: `to[c][r] = from.(row r, column c)` for all sixteen
   * entries, so the stored grid is transposed.
   */
  function AiMatrix4x4ToGlm(from: AiMatrix4x4): GlmMat4 {
    GlmMat4(Transpose(from.rows))
  }

  /** The opposite conversion (glm to Assimp storage); used as the partner of AiMatrix4x4ToGlm. */
  function GlmToAiMatrix4x4(m: GlmMat4): AiMatrix4x4 {
    AiMatrix4x4(Transpose(m.columns))
  }

  /** Entry at row r, column c, of the matrix a glm value denotes. */
  function GlmEntry(m: GlmMat4, r: nat, c: nat): real
    requires r < 4 && c < 4
  {
    m.columns[c][r]
  }

  /** Entry at row r, column c, of the matrix an Assimp value denotes. */
  function AiEntry(a: AiMatrix4x4, r: nat, c: nat): real
    requires r < 4 && c < 4
  {
    a.rows[r][c]
  }

  /** The conversion keeps the matrix: only its storage order changes. */
  lemma ConversionKeepsEntries(a: AiMatrix4x4, r: nat, c: nat)
    requires r < 4 && c < 4
    ensures GlmEntry(AiMatrix4x4ToGlm(a), r, c) == AiEntry(a, r, c)
  {
  }

  /** Converting to glm and back gives the original Assimp matrix. */
  lemma ConversionRoundTrip(a: AiMatrix4x4)
    ensures GlmToAiMatrix4x4(AiMatrix4x4ToGlm(a)) == a
  {
    TransposeTwice(a.rows);
  }
}
