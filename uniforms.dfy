/**
 * Upload of the animator's final bone matrices: one uniform write per bone,
 * to the array element named `boneTransforms[i]`.
 */
module BoneUniforms {
  import opened Matrices

  /** One glUniformMatrix4fv call, addressed by the uniform's name (the location lookup by name is not modelled). */
  datatype UniformWrite = UniformWrite(name: string, value: Mat)

  predicate IsDigit(c: char) {
    '0' <= c <= '9'
  }

  function DigitChar(d: nat): (c: char)
    requires d < 10
    ensures IsDigit(c)
  {
    (48 + d) as char
  }

  function DigitValue(c: char): (d: nat)
    requires IsDigit(c)
    ensures d < 10
  {
    (c as int - 48) as nat
  }

  /** std::to_string on a non-negative index: decimal digits, most significant first, without leading zeros. */
  function NatToString(n: nat): (s: string)
    ensures |s| > 0
    ensures forall k | 0 <= k < |s| :: IsDigit(s[k])
    ensures s[0] != '0' || n == 0
    decreases n
  {
    if n < 10 then [DigitChar(n)] else NatToString(n / 10) + [DigitChar(n % 10)]
  }

  /** The value of a string of decimal digits. */
  function ParseDigits(s: string): nat
    requires forall k | 0 <= k < |s| :: IsDigit(s[k])
    decreases |s|
  {
    if s == [] then 0 else ParseDigits(s[..|s| - 1]) * 10 + DigitValue(s[|s| - 1])
  }

  /** Reading back the digits of n gives n. */
  lemma {:induction false} ParseNatToString(n: nat)
    ensures ParseDigits(NatToString(n)) == n
    decreases n
  {
    var s := NatToString(n);
    if n >= 10 {
      ParseNatToString(n / 10);
      assert s[..|s| - 1] == NatToString(n / 10);
    }
  }

  /** Different indices have different decimal spellings. */
  lemma NatToStringInjective(i: nat, j: nat)
    ensures NatToString(i) == NatToString(j) <==> i == j
  {
    if NatToString(i) == NatToString(j) {
      ParseNatToString(i);
      ParseNatToString(j);
    }
  }

  const NamePrefix: string := "boneTransforms["

  /** The name of element i of the bone-matrix uniform array. */
  function BoneUniformName(i: nat): (name: string)
    ensures |name| == |NamePrefix| + |NatToString(i)| + 1
    ensures name[..|NamePrefix|] == NamePrefix && name[|name| - 1] == ']'
    ensures name[|NamePrefix|..|name| - 1] == NatToString(i)
  {
    NamePrefix + NatToString(i) + "]"
  }

  /** Two bone indices address the same uniform exactly when they are equal. */
  lemma BoneUniformNamesDistinct(i: nat, j: nat)
    ensures BoneUniformName(i) == BoneUniformName(j) <==> i == j
  {
    var a, b := BoneUniformName(i), BoneUniformName(j);
    if a == b {
      assert NatToString(i) == a[|NamePrefix|..|a| - 1] == NatToString(j);
      NatToStringInjective(i, j);
    }
  }

  /**
   * setUniformBoneTransforms: for each matrix in increasing index order, one
   * write of that matrix to the element with the same index.
   */
  method SetUniformBoneTransforms(transforms: seq<Mat>) returns (writes: seq<UniformWrite>)
    ensures |writes| == |transforms|
    ensures forall i | 0 <= i < |transforms| :: writes[i] == UniformWrite(BoneUniformName(i), transforms[i])
  {
    writes := [];
    for i := 0 to |transforms|
      invariant |writes| == i
      invariant forall k | 0 <= k < i :: writes[k] == UniformWrite(BoneUniformName(k), transforms[k])
    {
      var boneStr := NamePrefix + NatToString(i) + "]";
      writes := writes + [UniformWrite(boneStr, transforms[i])];
    }
  }

  /** Every bone matrix of an upload lands in a uniform of its own. */
  lemma UploadTargetsDistinct(transforms: seq<Mat>, writes: seq<UniformWrite>, i: nat, j: nat)
    requires |writes| == |transforms|
    requires forall k | 0 <= k < |transforms| :: writes[k] == UniformWrite(BoneUniformName(k), transforms[k])
    requires i < |writes| && j < |writes| && i != j
    ensures writes[i].name != writes[j].name
  {
    BoneUniformNamesDistinct(i, j);
  }
}
