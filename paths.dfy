/**
 * Record paths: `format!("{}/{}", root, calculate_hash(key).to_string())`.
 */
module Paths {

  import opened Hashing

  /**
   * The directory part of a path (what `Path::parent` gives): everything
   * before the last `/`, or the empty path when there is none.
   */
  function DirName(p: string): (d: string)
    ensures |d| <= |p| && d == p[..|d|]
  {
    if p == [] then []
    else if p[|p| - 1] == '/' then p[..|p| - 1]
    else DirName(p[..|p| - 1])
  }

  /** A path without `/` is a bare name in the working directory. */
  lemma {:induction false} DirNameOfName(name: string)
    requires '/' !in name
    ensures DirName(name) == []
  {
    if name != [] {
      DirNameOfName(name[..|name| - 1]);
    }
  }

  /**
   * The record path of a digest under `root`: the root, one `/`, then a
   * name of decimal digits that reads back as the digest.
   */
  function RecordPath(root: string, digest: U64): (p: string)
    ensures |p| > |root| + 1 && p[..|root| + 1] == root + "/"
    ensures forall i :: |root| + 1 <= i < |p| ==> IsDigit(p[i])
    ensures ParseDecimal(p[|root| + 1..]) == digest
  {
    var p := root + "/" + Decimal(digest);
    assert p[|root| + 1..] == Decimal(digest);
    DecimalRoundTrip(digest);
    p
  }

  /** A name without `/` appended to `root + "/"` has `root` as its directory. */
  lemma {:induction false} DirNameOfChild(root: string, name: string)
    requires '/' !in name
    ensures DirName(root + "/" + name) == root
  {
    var p := root + "/" + name;
    if name == [] {
      assert p[..|p| - 1] == root;
    } else {
      assert p[|p| - 1] == name[|name| - 1];
      assert p[..|p| - 1] == root + "/" + name[..|name| - 1];
      DirNameOfChild(root, name[..|name| - 1]);
    }
  }

  /** Every record file lies directly in the store's root directory. */
  lemma RecordPathInRoot(root: string, digest: U64)
    ensures DirName(RecordPath(root, digest)) == root
  {
    DirNameOfChild(root, Decimal(digest));
  }

  /**
   * Under one root, two record paths are equal exactly when the digests are:
   * distinct digests never share a file, equal digests always do.
   */
  lemma RecordPathInjective(root: string, d1: U64, d2: U64)
    ensures RecordPath(root, d1) == RecordPath(root, d2) <==> d1 == d2
  {
    var p1, p2 := RecordPath(root, d1), RecordPath(root, d2);
    if p1 == p2 {
      assert p1[|root| + 1..] == Decimal(d1);
      assert p2[|root| + 1..] == Decimal(d2);
      DecimalInjective(d1, d2);
    }
  }
}
