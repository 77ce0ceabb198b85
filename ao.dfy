/** Ambient-occlusion levels of a face's four corners, and their packing into
    one byte (terrainMesher.js 1356-1466).

    Corner naming, looking at the face with J to the right and K up:

        B(bits 2-3) - C(bits 6-7)
        A(bits 0-1) - D(bits 4-5)

    Levels: 0 reverse occlusion (an exposed convex edge), 1 flat, 2 partial,
    3 maximal occlusion. */
module AO {

  datatype Corners = Corners(a: int, b: int, c: int, d: int)

  predicate IsLevel(x: int)
  {
    0 <= x <= 3
  }

  predicate AllLevels(cs: Corners)
  {
    IsLevel(cs.a) && IsLevel(cs.b) && IsLevel(cs.c) && IsLevel(cs.d)
  }

  /** `C << 6 | D << 4 | B << 2 | A`. For two-bit fields the shifted values
      occupy disjoint bits, so the bitwise or is their sum. */
  function Pack(cs: Corners): int
  {
    cs.c * 64 + cs.d * 16 + cs.b * 4 + cs.a
  }

  /** unpackAOMask: `[aomask & 3, aomask >> 2 & 3, aomask >> 6 & 3, aomask >> 4 & 3]`,
      returned as the corners A, B, C, D. On 32-bit integers `x >> s` is the
      floor of x / 2^s and `x & 3` the non-negative remainder mod 4, which is
      what Dafny's Euclidean `/` and `%` by positive constants compute. */
  function UnpackAOMask(aomask: int): (r: Corners)
    ensures AllLevels(r)
    ensures 0 <= aomask < 256 ==> Pack(r) == aomask
  {
    var r := Corners(aomask % 4, (aomask / 4) % 4, (aomask / 64) % 4, (aomask / 16) % 4);
    assert 0 <= aomask < 256 ==> Pack(r) == aomask by {
      if 0 <= aomask < 256 { ByteFields(aomask); }
    }
    r
  }

  /** The four two-bit fields of a byte add back up to it. */
  lemma ByteFields(x: int)
    requires 0 <= x < 256
    ensures (x / 64) % 4 * 64 + (x / 16) % 4 * 16 + (x / 4) % 4 * 4 + x % 4 == x
  {
    var q1, q2, q3 := x / 4, x / 16, x / 64;
    assert x == 4 * q1 + x % 4;
    assert q2 == q1 / 4 && q1 == 4 * q2 + q1 % 4;
    assert q3 == q2 / 4 && q2 == 4 * q3 + q2 % 4;
    assert q3 < 4;
  }

  /** Unpacking a packed value gives back the four levels. */
  lemma {:induction false} UnpackPack(cs: Corners)
    requires AllLevels(cs)
    ensures UnpackAOMask(Pack(cs)) == cs
  {
    FieldOf4(cs.c * 16 + cs.d * 4 + cs.b, cs.a);
    FieldOf4(cs.c * 4 + cs.d, cs.b);
    FieldOf16(cs.c * 4 + cs.d, cs.b * 4 + cs.a);
    FieldOf4(cs.c, cs.d);
    FieldOf64(cs.c, cs.d * 16 + cs.b * 4 + cs.a);
    FieldOf4(0, cs.c);
  }

  /** Quotient and remainder of q * 2^s + r with r below 2^s. */
  lemma FieldOf4(q: int, r: int)
    requires 0 <= r < 4
    ensures (q * 4 + r) / 4 == q && (q * 4 + r) % 4 == r
  {
  }

  lemma FieldOf16(q: int, r: int)
    requires 0 <= r < 16
    ensures (q * 16 + r) / 16 == q
  {
  }

  lemma FieldOf64(q: int, r: int)
    requires 0 <= r < 64
    ensures (q * 64 + r) / 64 == q
  {
  }

  /** Re-packing an unpacked byte gives back the byte. */
  lemma PackUnpack(b: int)
    requires 0 <= b < 256
    ensures Pack(UnpackAOMask(b)) == b
  {
  }

  /** Level of one corner. The corner lies in direction (sj, sk), each +1 or
      -1, from the face centre; `ipos` is the layer the face looks into and
      `ineg` the layer behind it. */
  function CornerLevel(isSolid: (int, int, int) -> bool, ipos: int, ineg: int, j: int, k: int,
                       sj: int, sk: int, skipReverse: bool): (r: int)
    requires sj == 1 || sj == -1
    requires sk == 1 || sk == -1
    ensures IsLevel(r)
    ensures isSolid(ipos, j, k) ==> r == 2 || r == 3
    ensures skipReverse ==> 1 <= r
    ensures isSolid(ipos, j + sj, k) && isSolid(ipos, j, k + sk) ==> r == 3
    ensures r == 0 <==>
      && !isSolid(ipos, j, k) && !skipReverse
      && !isSolid(ipos, j + sj, k) && !isSolid(ipos, j, k + sk)
      && !isSolid(ipos, j + sj, k + sk)
      && (!isSolid(ineg, j, k + sk) || !isSolid(ineg, j + sj, k) || !isSolid(ineg, j + sj, k + sk))
  {
    // one step per obstructed side next to the corner
    var base := 1 + (if isSolid(ipos, j + sj, k) then 1 else 0)
                  + (if isSolid(ipos, j, k + sk) then 1 else 0);
    var diagonal := isSolid(ipos, j + sj, k + sk);
    if isSolid(ipos, j, k) then
      // facing into a solid (non-opaque) block: always 2, or 3 in corners
      (if base == 3 || diagonal then 3 else 2)
    else if skipReverse then
      (if base == 1 && diagonal then 2 else base)
    else if base == 1 then
      (if diagonal then 2
       else if !isSolid(ineg, j, k + sk) || !isSolid(ineg, j + sj, k) || !isSolid(ineg, j + sj, k + sk) then 0
       else 1)
    else base
  }

  /** The four corner levels packAOMask computes before packing them. */
  function AOLevels(isSolid: (int, int, int) -> bool, ipos: int, ineg: int, j: int, k: int,
                    skipReverse: bool): (r: Corners)
    ensures AllLevels(r)
    ensures r.a == CornerLevel(isSolid, ipos, ineg, j, k, -1, -1, skipReverse)
    ensures r.b == CornerLevel(isSolid, ipos, ineg, j, k, -1, 1, skipReverse)
    ensures r.c == CornerLevel(isSolid, ipos, ineg, j, k, 1, 1, skipReverse)
    ensures r.d == CornerLevel(isSolid, ipos, ineg, j, k, 1, -1, skipReverse)
  {
    Corners(CornerLevel(isSolid, ipos, ineg, j, k, -1, -1, skipReverse),
            CornerLevel(isSolid, ipos, ineg, j, k, -1, 1, skipReverse),
            CornerLevel(isSolid, ipos, ineg, j, k, 1, 1, skipReverse),
            CornerLevel(isSolid, ipos, ineg, j, k, 1, -1, skipReverse))
  }

  /** packAOMask: the packed byte of the four corner levels. */
  function PackAOMask(isSolid: (int, int, int) -> bool, ipos: int, ineg: int, j: int, k: int,
                      skipReverse: bool): (r: int)
    ensures 0 <= r < 256
    ensures UnpackAOMask(r) == AOLevels(isSolid, ipos, ineg, j, k, skipReverse)
  {
    var levels := AOLevels(isSolid, ipos, ineg, j, k, skipReverse);
    UnpackPack(levels);
    Pack(levels)
  }

  /** Facing a solid voxel, every corner is partially or fully occluded. */
  lemma FacingSolidCorners(isSolid: (int, int, int) -> bool, ipos: int, ineg: int, j: int, k: int,
                           skipReverse: bool)
    requires isSolid(ipos, j, k)
    ensures var cs := UnpackAOMask(PackAOMask(isSolid, ipos, ineg, j, k, skipReverse));
      cs.a in {2, 3} && cs.b in {2, 3} && cs.c in {2, 3} && cs.d in {2, 3}
  {
  }

  /** Without reverse AO no corner is brightened below the flat level. */
  lemma SkipReverseNoZero(isSolid: (int, int, int) -> bool, ipos: int, ineg: int, j: int, k: int)
    ensures var cs := UnpackAOMask(PackAOMask(isSolid, ipos, ineg, j, k, true));
      cs.a != 0 && cs.b != 0 && cs.c != 0 && cs.d != 0
  {
  }

  /** Nothing solid around a face in the layer it looks into, and the two cells
      beside it in the layer behind empty: every corner gets reverse AO (level 0)
      unless reverse AO is disabled, in which case all stay flat (0x55). */
  lemma OpenSurroundings(isSolid: (int, int, int) -> bool, ipos: int, ineg: int, j: int, k: int,
                         skipReverse: bool)
    requires Open(isSolid, ipos, j, k)
    requires !isSolid(ineg, j + 1, k) && !isSolid(ineg, j - 1, k)
    ensures PackAOMask(isSolid, ipos, ineg, j, k, skipReverse) == if skipReverse then 0x55 else 0
  {
  }

  /** The face's own cell and its eight in-plane neighbours in layer `i` are all empty. */
  predicate Open(isSolid: (int, int, int) -> bool, i: int, j: int, k: int)
  {
    && !isSolid(i, j, k)
    && !isSolid(i, j + 1, k) && !isSolid(i, j - 1, k) && !isSolid(i, j, k + 1) && !isSolid(i, j, k - 1)
    && !isSolid(i, j + 1, k + 1) && !isSolid(i, j - 1, k + 1) && !isSolid(i, j + 1, k - 1) && !isSolid(i, j - 1, k - 1)
  }
}
