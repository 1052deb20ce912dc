/** The search for a channel by its keyword among the fields of a datagram, text or binary. */
module RadarSearch {

  /** The last field that equals a keyword; -1 if there is none. */
  function LastRow<T(==)>(fields: seq<T>, keyword: T): (r: int)
    ensures -1 <= r < |fields| && (r >= 0 ==> fields[r] == keyword)
  {
    if fields == [] then -1
    else if fields[|fields| - 1] == keyword then |fields| - 1
    else LastRow(fields[..|fields| - 1], keyword)
  }

  method FindKeywords<T(==)>(fields: seq<T>, keywords: seq<T>) returns (keyWordPos: seq<int>)
    ensures |keyWordPos| == |keywords|
    ensures forall j :: 0 <= j < |keywords| ==> keyWordPos[j] == LastRow(fields, keywords[j])
  {
    keyWordPos := seq(|keywords|, _ => -1);
    for i := 0 to |fields|
      invariant |keyWordPos| == |keywords|
      invariant forall j :: 0 <= j < |keywords| ==> keyWordPos[j] == LastRow(fields[..i], keywords[j])
    {
      assert fields[..i + 1][..i] == fields[..i];
      for j := 0 to |keywords|
        invariant |keyWordPos| == |keywords|
        invariant forall k :: 0 <= k < j ==> keyWordPos[k] == LastRow(fields[..i + 1], keywords[k])
        invariant forall k :: j <= k < |keywords| ==> keyWordPos[k] == LastRow(fields[..i], keywords[k])
      {
        if fields[i] == keywords[j] {
          keyWordPos := keyWordPos[j := i];
        }
      }
    }
    assert fields[..|fields|] == fields;
  }

  lemma {:induction false} LastConcat<T>(a: seq<T>, b: seq<T>, kw: T)
    ensures LastRow(a + b, kw) == if LastRow(b, kw) >= 0 then |a| + LastRow(b, kw) else LastRow(a, kw)
  {
    if b == [] {
      assert a + b == a;
    } else {
      assert (a + b)[..|a + b| - 1] == a + b[..|b| - 1];
      LastConcat(a, b[..|b| - 1], kw);
    }
  }

  lemma {:induction false} LastAbsent<T>(fields: seq<T>, kw: T)
    requires kw !in fields
    ensures LastRow(fields, kw) == -1
  {
    if fields != [] {
      LastAbsent(fields[..|fields| - 1], kw);
    }
  }

  lemma LastOne<T>(t: T, kw: T)
    ensures LastRow([t], kw) == if t == kw then 0 else -1
  {
    assert [t][..0] == [];
  }

  /** A row that holds the keyword, with none behind it, is the one found. */
  lemma {:induction false} LastRowIs<T>(fields: seq<T>, kw: T, r: nat)
    requires r < |fields| && fields[r] == kw && forall j :: r < j < |fields| ==> fields[j] != kw
    ensures LastRow(fields, kw) == r
  {
    if r < |fields| - 1 {
      LastRowIs(fields[..|fields| - 1], kw, r);
    }
  }

  /** No row behind the one found holds the keyword. */
  lemma {:induction false} NothingBehind<T>(fields: seq<T>, kw: T)
    ensures forall j :: LastRow(fields, kw) < j < |fields| ==> fields[j] != kw
  {
    if fields != [] && fields[|fields| - 1] != kw {
      NothingBehind(fields[..|fields| - 1], kw);
    }
  }
}
