/**
 The type-ID encoding of `get_types_id_array`: every particle's chemical
 symbol is replaced by a dense integer code, handed out in order of first
 appearance.
 */
module TypeIds {

  /** A chemical symbol label, as stored in the trajectory's `symbols` attribute. */
  type Symbol = string

  /** Position of the first occurrence of `x` in `s`. */
  function IndexOf(s: seq<Symbol>, x: Symbol): (k: nat)
    requires x in s
    ensures k < |s| && s[k] == x
    ensures forall j :: 0 <= j < k ==> s[j] != x
  {
    if s[0] == x then 0 else 1 + IndexOf(s[1..], x)
  }

  lemma {:induction false} IndexOfUnique(s: seq<Symbol>, x: Symbol, k: nat)
    requires k < |s| && s[k] == x
    requires forall j :: 0 <= j < k ==> s[j] != x
    ensures IndexOf(s, x) == k
  {
  }

  /** Appending an element does not move the first occurrence of anything already present. */
  lemma {:induction false} IndexOfAppend(s: seq<Symbol>, t: Symbol, x: Symbol)
    requires x in s
    ensures IndexOf(s + [t], x) == IndexOf(s, x)
  {
    var k := IndexOf(s, x);
    IndexOfUnique(s + [t], x, k);
  }

  lemma {:induction false} IndexOfAppendNew(s: seq<Symbol>, t: Symbol)
    requires t !in s
    ensures IndexOf(s + [t], t) == |s|
  {
    IndexOfUnique(s + [t], t, |s|);
  }

  predicate NoDuplicates(s: seq<Symbol>) {
    forall i, j :: 0 <= i < j < |s| ==> s[i] != s[j]
  }

  /** The distinct symbols of `s`, in order of first occurrence (the keys of the source's dictionary, in insertion order). */
  function Distinct(s: seq<Symbol>): (d: seq<Symbol>)
    ensures NoDuplicates(d)
    ensures forall x :: x in d <==> x in s
    ensures |d| <= |s|
  {
    if |s| == 0 then []
    else
      var init := s[..|s| - 1];
      assert s == init + [s[|s| - 1]];
      var d := Distinct(init);
      if s[|s| - 1] in d then d else d + [s[|s| - 1]]
  }

  /** The reference encoding: each position gets the rank of its symbol among the distinct symbols. */
  function Codes(s: seq<Symbol>): (r: seq<int>)
    ensures |r| == |s|
    ensures forall i :: 0 <= i < |s| ==> 0 <= r[i] < |Distinct(s)|
    ensures forall i :: 0 <= i < |s| ==> Distinct(s)[r[i]] == s[i]
  {
    seq(|s|, i requires 0 <= i < |s| => IndexOf(Distinct(s), s[i]))
  }

  /** Appending a symbol extends the distinct list only when the symbol is new. */
  lemma {:induction false} DistinctSnoc(s: seq<Symbol>, t: Symbol)
    ensures Distinct(s + [t]) == if t in Distinct(s) then Distinct(s) else Distinct(s) + [t]
  {
    assert (s + [t])[..|s|] == s;
  }

  lemma {:induction false} CodesSnocAt(s: seq<Symbol>, t: Symbol, j: nat)
    requires j < |s|
    ensures Codes(s + [t])[j] == Codes(s)[j]
  {
    var d := Distinct(s);
    assert (s + [t])[j] == s[j];
    DistinctSnoc(s, t);
    if t !in d {
      IndexOfAppend(d, t, s[j]);
    }
  }

  /** Appending a symbol leaves the earlier codes alone and adds the code of the new position. */
  lemma {:induction false} CodesSnoc(s: seq<Symbol>, t: Symbol)
    ensures Codes(s + [t]) == Codes(s) + [IndexOf(Distinct(s + [t]), t)]
  {
    var lhs, rhs := Codes(s + [t]), Codes(s) + [IndexOf(Distinct(s + [t]), t)];
    forall j | 0 <= j < |s|
      ensures lhs[j] == rhs[j]
    {
      CodesSnocAt(s, t, j);
    }
    assert lhs[|s|] == rhs[|s|];
  }

  /** The dictionary the loop has built after reading `s`: each new symbol gets the next fresh code. */
  function CodeMap(s: seq<Symbol>): map<Symbol, int> {
    if |s| == 0 then map[]
    else
      var init := s[..|s| - 1];
      var m := CodeMap(init);
      if s[|s| - 1] in m then m else m[s[|s| - 1] := |Distinct(init)|]
  }

  /** The dictionary maps exactly the distinct symbols, each to its rank. */
  lemma {:induction false} CodeMapRanks(s: seq<Symbol>)
    ensures forall x :: x in CodeMap(s) <==> x in Distinct(s)
    ensures forall x :: x in CodeMap(s) ==> CodeMap(s)[x] == IndexOf(Distinct(s), x)
  {
    if |s| > 0 {
      var init, t := s[..|s| - 1], s[|s| - 1];
      assert s == init + [t];
      CodeMapRanks(init);
      DistinctSnoc(init, t);
      var d := Distinct(init);
      if t !in d {
        forall x | x in d
          ensures IndexOf(d + [t], x) == IndexOf(d, x)
        {
          IndexOfAppend(d, t, x);
        }
        IndexOfAppendNew(d, t);
      }
    }
  }

  lemma {:induction false} EncodeStepMap(s: seq<Symbol>, t: Symbol)
    ensures t in CodeMap(s) <==> t in Distinct(s)
    ensures CodeMap(s + [t]) == if t in CodeMap(s) then CodeMap(s) else CodeMap(s)[t := |Distinct(s)|]
  {
    assert (s + [t])[..|s|] == s;
    CodeMapRanks(s);
  }

  lemma {:induction false} EncodeStepCodes(s: seq<Symbol>, t: Symbol)
    ensures Codes(s + [t]) == Codes(s) + [if t in CodeMap(s) then CodeMap(s)[t] else |Distinct(s)|]
  {
    CodesSnoc(s, t);
    DistinctSnoc(s, t);
    CodeMapRanks(s);
    if t !in Distinct(s) {
      IndexOfAppendNew(Distinct(s), t);
    }
  }

  /** One turn of the loop: how the dictionary, the counter and the result grow when `t` is read. */
  lemma {:induction false} EncodeStep(s: seq<Symbol>, t: Symbol)
    ensures t in CodeMap(s) <==> t in Distinct(s)
    ensures CodeMap(s + [t]) == if t in CodeMap(s) then CodeMap(s) else CodeMap(s)[t := |Distinct(s)|]
    ensures |Distinct(s + [t])| == if t in CodeMap(s) then |Distinct(s)| else |Distinct(s)| + 1
    ensures Codes(s + [t]) == Codes(s) + [if t in CodeMap(s) then CodeMap(s)[t] else |Distinct(s)|]
  {
    EncodeStepMap(s, t);
    EncodeStepCodes(s, t);
    DistinctSnoc(s, t);
  }

  /**
   The loop of `get_types_id_array`: a dictionary from symbol to code and
   a counter for the next fresh code.
   */
  method GetTypesIdArray(types: seq<Symbol>) returns (res: seq<int>)
    ensures res == Codes(types)
    ensures |res| == |types|
    ensures |types| > 0 ==> res[0] == 0
  {
    var ids: map<Symbol, int> := map[];
    var typeid := 0;
    res := [];
    for i := 0 to |types|
      invariant ids == CodeMap(types[..i])
      invariant typeid == |Distinct(types[..i])|
      invariant res == Codes(types[..i])
    {
      var t := types[i];
      assert types[..i + 1] == types[..i] + [t];
      EncodeStep(types[..i], t);
      if t !in ids {
        ids := ids[t := typeid];
        typeid := typeid + 1;
      }
      res := res + [ids[t]];
    }
    assert types[..|types|] == types;
    if |types| > 0 {
      CodesStartAtZero(types);
    }
  }

  lemma {:induction false} DistinctHead(s: seq<Symbol>)
    requires |s| > 0
    ensures |Distinct(s)| > 0 && Distinct(s)[0] == s[0]
  {
    if |s| > 1 {
      var init := s[..|s| - 1];
      DistinctHead(init);
      assert init[0] == s[0];
    }
  }

  /** The first symbol always gets code 0. */
  lemma {:induction false} CodesStartAtZero(s: seq<Symbol>)
    requires |s| > 0
    ensures Codes(s)[0] == 0
  {
    DistinctHead(s);
    IndexOfUnique(Distinct(s), s[0], 0);
  }

  /** Equal symbols get equal codes and different symbols get different codes. */
  lemma {:induction false} CodesConsistent(s: seq<Symbol>, i: nat, j: nat)
    requires i < |s| && j < |s|
    ensures s[i] == s[j] <==> Codes(s)[i] == Codes(s)[j]
  {
  }

  lemma {:induction false} NoDuplicatesCard(d: seq<Symbol>)
    requires NoDuplicates(d)
    ensures |set x | x in d| == |d|
  {
    if |d| > 0 {
      var init := d[..|d| - 1];
      NoDuplicatesCard(init);
      assert d == init + [d[|d| - 1]];
      assert (set x | x in d) == (set x | x in init) + {d[|d| - 1]};
    }
  }

  /**
   The codes are exactly 0 .. k-1, where k is the number of distinct
   symbols: every code is below k, and code c is taken by the first
   occurrence of the c-th distinct symbol.
   */
  lemma {:induction false} CodesDense(s: seq<Symbol>)
    ensures |Distinct(s)| == |set x | x in s|
    ensures forall i :: 0 <= i < |s| ==> 0 <= Codes(s)[i] < |set x | x in s|
    ensures forall c :: 0 <= c < |Distinct(s)| ==> Codes(s)[IndexOf(s, Distinct(s)[c])] == c
  {
    var d := Distinct(s);
    NoDuplicatesCard(d);
    assert (set x | x in d) == (set x | x in s);
    forall c | 0 <= c < |d|
      ensures Codes(s)[IndexOf(s, d[c])] == c
    {
      IndexOfUnique(d, d[c], c);
    }
  }

  /** Ranks among the distinct symbols follow the order of first occurrence in the input. */
  lemma {:induction false} DistinctOrder(s: seq<Symbol>, x: Symbol, y: Symbol)
    requires x in s && y in s
    ensures IndexOf(Distinct(s), x) < IndexOf(Distinct(s), y) <==> IndexOf(s, x) < IndexOf(s, y)
  {
    var init := s[..|s| - 1];
    var t := s[|s| - 1];
    assert s == init + [t];
    var d := Distinct(init);
    if x in init && y in init {
      DistinctOrder(init, x, y);
      IndexOfAppend(init, t, x);
      IndexOfAppend(init, t, y);
      if t !in d {
        IndexOfAppend(d, t, x);
        IndexOfAppend(d, t, y);
      }
    } else if x in init {
      // y is the new last symbol
      assert y == t && t !in init && t !in d;
      IndexOfAppend(init, t, x);
      IndexOfAppendNew(init, t);
      IndexOfAppend(d, t, x);
      IndexOfAppendNew(d, t);
    } else if y in init {
      assert x == t && t !in init && t !in d;
      IndexOfAppend(init, t, y);
      IndexOfAppendNew(init, t);
      IndexOfAppend(d, t, y);
      IndexOfAppendNew(d, t);
    } else {
      assert x == t && y == t;
    }
  }

  /** In a list without duplicates, the members of the first c entries are those whose index is below c. */
  lemma {:induction false} PrefixMembers(d: seq<Symbol>, c: nat, y: Symbol)
    requires NoDuplicates(d) && c <= |d| && y in d
    ensures y in d[..c] <==> IndexOf(d, y) < c
  {
    if y in d[..c] {
      var j :| 0 <= j < c && d[..c][j] == y;
      assert d[j] == y;
      IndexOfUnique(d, y, j);
    }
  }

  /**
   A symbol's code is the number of distinct symbols whose first occurrence
   comes before its own.
   */
  lemma {:induction false} CodeCountsEarlierSymbols(s: seq<Symbol>, i: nat)
    requires i < |s|
    ensures Codes(s)[i] == |set y | y in s && IndexOf(s, y) < IndexOf(s, s[i])|
  {
    var d := Distinct(s);
    var c := Codes(s)[i];
    EarlierSymbolsArePrefix(s, i);
    assert NoDuplicates(d[..c]);
    NoDuplicatesCard(d[..c]);
  }

  lemma {:induction false} EarlierSymbolsArePrefix(s: seq<Symbol>, i: nat)
    requires i < |s|
    ensures (set y | y in s && IndexOf(s, y) < IndexOf(s, s[i])) == set y | y in Distinct(s)[..Codes(s)[i]]
  {
    var d := Distinct(s);
    var c := Codes(s)[i];
    IndexOfUnique(d, s[i], c);
    forall y | y in s
      ensures y in d[..c] <==> IndexOf(s, y) < IndexOf(s, s[i])
    {
      DistinctOrder(s, y, s[i]);
      PrefixMembers(d, c, y);
    }
  }
}
