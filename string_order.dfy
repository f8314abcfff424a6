/** The order the catalog is sorted by and searched with: `strcmp(a, b) < 0`. */
module StringOrder {

  /** Strict lexicographic order on strings, character by character; a proper prefix
      comes first. This is what `strcmp(a, b) < 0` decides for strings without NUL. It is
      strict: no name orders below itself. */
  predicate Less(a: string, b: string): (r: bool)
    ensures r ==> a != b
    decreases |a|
  {
    if |b| == 0 then false
    else if |a| == 0 then true
    else if a[0] != b[0] then a[0] < b[0]
    else Less(a[1..], b[1..])
  }

  /** `Less` is the order `strcmp` decides: `a` is a proper prefix of `b`, or at the first
      position where they differ `a` holds the smaller character. */
  lemma {:induction false} LessIsLexBefore(a: string, b: string)
    ensures Less(a, b) <==> LexBefore(a, b)
    decreases |a|
  {
    if 0 < |a| && 0 < |b| && a[0] == b[0] {
      LessIsLexBefore(a[1..], b[1..]);
      LexBeforeTail(a, b);
    }
  }

  /** The order spelled out: `a` is a proper prefix of `b`, or the two first differ at a
      position where `a` holds the smaller character. */
  ghost predicate LexBefore(a: string, b: string) {
    (|a| < |b| && a == b[..|a|]) ||
    exists k :: 0 <= k < |a| && k < |b| && a[..k] == b[..k] && a[k] < b[k]
  }

  /** A common first character does not decide the order. */
  lemma LexBeforeTail(a: string, b: string)
    requires 0 < |a| && 0 < |b| && a[0] == b[0]
    ensures LexBefore(a, b) <==> LexBefore(a[1..], b[1..])
  {
    if LexBefore(a, b) {
      LexBeforeDropsHead(a, b);
    }
    if LexBefore(a[1..], b[1..]) {
      LexBeforeAddsHead(a, b);
    }
  }

  /** One direction of LexBeforeTail: the order survives dropping a common first character. */
  lemma LexBeforeDropsHead(a: string, b: string)
    requires 0 < |a| && 0 < |b| && a[0] == b[0] && LexBefore(a, b)
    ensures LexBefore(a[1..], b[1..])
  {
    if |a| < |b| && a == b[..|a|] {
      assert a[1..] == b[1..][..|a| - 1];
    } else {
      var k :| 0 <= k < |a| && k < |b| && a[..k] == b[..k] && a[k] < b[k];
      assert k != 0;
      assert a[1..][..k - 1] == a[..k][1..];
      assert b[1..][..k - 1] == b[..k][1..];
      assert a[1..][k - 1] < b[1..][k - 1];
    }
  }

  /** The other direction: the order survives adding a common first character. */
  lemma LexBeforeAddsHead(a: string, b: string)
    requires 0 < |a| && 0 < |b| && a[0] == b[0] && LexBefore(a[1..], b[1..])
    ensures LexBefore(a, b)
  {
    var a', b' := a[1..], b[1..];
    if |a'| < |b'| && a' == b'[..|a'|] {
      assert a == [a[0]] + a';
      assert b[..|a|] == [b[0]] + b'[..|a'|];
    } else {
      var k :| 0 <= k < |a'| && k < |b'| && a'[..k] == b'[..k] && a'[k] < b'[k];
      assert a[..k + 1] == [a[0]] + a'[..k];
      assert b[..k + 1] == [b[0]] + b'[..k];
      assert a[k + 1] < b[k + 1];
    }
  }

  lemma {:induction false} LessTransitive(a: string, b: string, c: string)
    requires Less(a, b) && Less(b, c)
    ensures Less(a, c)
  {
    if |a| > 0 && a[0] == b[0] && b[0] == c[0] {
      LessTransitive(a[1..], b[1..], c[1..]);
    }
  }
}
