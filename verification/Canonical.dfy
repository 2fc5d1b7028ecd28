/**
 The grading snapshot before hashing, in skipped mode. Text digests are an arbitrary injective function, and
 strings compare by code point as Python's do.
 */
module Canonical {

  // ---------- Orders ----------

  /** Everything is comparable and comparison is transitive; ties are allowed. */
  ghost predicate TotalPreorder<T(!new)>(leq: (T, T) -> bool) {
    && (forall a, b :: leq(a, b) || leq(b, a))
    && (forall a, b, c :: leq(a, b) && leq(b, c) ==> leq(a, c))
  }

  ghost predicate TotalOrder<T(!new)>(leq: (T, T) -> bool) {
    && (forall a, b :: leq(a, b) || leq(b, a))
    && (forall a, b :: leq(a, b) && leq(b, a) ==> a == b)
    && (forall a, b, c :: leq(a, b) && leq(b, c) ==> leq(a, c))
  }

  /** Lexicographic comparison. */
  predicate Lex<T(==)>(leq: (T, T) -> bool, a: seq<T>, b: seq<T>) {
    if a == [] then true
    else if b == [] then false
    else if a[0] == b[0] then Lex(leq, a[1..], b[1..])
    else leq(a[0], b[0])
  }

  function LexOrder<T(==)>(leq: (T, T) -> bool): (seq<T>, seq<T>) -> bool {
    (a, b) => Lex(leq, a, b)
  }

  lemma {:induction false} LexTotal<T(!new)>(leq: (T, T) -> bool, a: seq<T>, b: seq<T>)
    requires TotalOrder(leq)
    ensures Lex(leq, a, b) || Lex(leq, b, a)
    ensures Lex(leq, a, b) && Lex(leq, b, a) ==> a == b
  {
    if a != [] && b != [] && a[0] == b[0] {
      LexTotal(leq, a[1..], b[1..]);
      assert a == [a[0]] + a[1..] && b == [b[0]] + b[1..];
    }
  }

  lemma {:induction false} LexTransitive<T(!new)>(leq: (T, T) -> bool, a: seq<T>, b: seq<T>, c: seq<T>)
    requires TotalOrder(leq) && Lex(leq, a, b) && Lex(leq, b, c)
    ensures Lex(leq, a, c)
  {
    if a != [] && b != [] && c != [] && a[0] == b[0] && b[0] == c[0] {
      LexTransitive(leq, a[1..], b[1..], c[1..]);
    }
  }

  /** Lexicographic comparison of sequences is a total order if that of their elements is. */
  lemma LexIsTotal<T(!new)>(leq: (T, T) -> bool)
    requires TotalOrder(leq)
    ensures TotalOrder(LexOrder(leq))
  {
    forall a: seq<T>, b: seq<T>
      ensures LexOrder(leq)(a, b) || LexOrder(leq)(b, a)
      ensures LexOrder(leq)(a, b) && LexOrder(leq)(b, a) ==> a == b
    {
      LexTotal(leq, a, b);
    }
    forall a: seq<T>, b: seq<T>, c: seq<T> | LexOrder(leq)(a, b) && LexOrder(leq)(b, c)
      ensures LexOrder(leq)(a, c)
    {
      LexTransitive(leq, a, b, c);
    }
  }

  // ---------- Sorting ----------

  function Insert<T>(leq: (T, T) -> bool, x: T, s: seq<T>): seq<T> {
    if s == [] || leq(x, s[0]) then [x] + s else [s[0]] + Insert(leq, x, s[1..])
  }

  function Sort<T>(leq: (T, T) -> bool, s: seq<T>): seq<T> {
    if s == [] then [] else Insert(leq, s[0], Sort(leq, s[1..]))
  }

  ghost predicate Sorted<T>(leq: (T, T) -> bool, s: seq<T>) {
    forall i, k :: 0 <= i < k < |s| ==> leq(s[i], s[k])
  }

  lemma {:induction false} InsertKeeps<T>(leq: (T, T) -> bool, x: T, s: seq<T>)
    ensures multiset(Insert(leq, x, s)) == multiset(s) + multiset{x}
  {
    if s != [] && !leq(x, s[0]) {
      InsertKeeps(leq, x, s[1..]);
      assert s == [s[0]] + s[1..];
    }
  }

  lemma {:induction false} InsertSorted<T(!new)>(leq: (T, T) -> bool, x: T, s: seq<T>)
    requires TotalPreorder(leq) && Sorted(leq, s)
    ensures Sorted(leq, Insert(leq, x, s))
  {
    if s != [] && !leq(x, s[0]) {
      InsertSorted(leq, x, s[1..]);
      InsertKeeps(leq, x, s[1..]);
      var t := Insert(leq, x, s[1..]);
      forall i | 0 <= i < |t| ensures leq(s[0], t[i]) {
        assert t[i] in multiset(t);
        assert t[i] in s[1..] || t[i] == x;
      }
    }
  }

  lemma {:induction false} SortSorts<T(!new)>(leq: (T, T) -> bool, s: seq<T>)
    requires TotalPreorder(leq)
    ensures Sorted(leq, Sort(leq, s)) && multiset(Sort(leq, s)) == multiset(s)
  {
    if s != [] {
      SortSorts(leq, s[1..]);
      InsertSorted(leq, s[0], Sort(leq, s[1..]));
      InsertKeeps(leq, s[0], Sort(leq, s[1..]));
      assert s == [s[0]] + s[1..];
    }
  }

  lemma {:induction false} SortedStays<T(!new)>(leq: (T, T) -> bool, s: seq<T>)
    requires Sorted(leq, s)
    ensures Sort(leq, s) == s
  {
    if s != [] {
      SortedStays(leq, s[1..]);
      assert s == [s[0]] + s[1..];
    }
  }

  /** Sorting, with ties in their old order, changes a list exactly if it was not sorted. */
  lemma SortFixedIff<T(!new)>(leq: (T, T) -> bool, s: seq<T>)
    requires TotalPreorder(leq)
    ensures Sort(leq, s) == s <==> Sorted(leq, s)
  {
    SortSorts(leq, s);
    if Sorted(leq, s) {
      SortedStays(leq, s);
    }
  }

  lemma LeastIsFirst<T(!new)>(leq: (T, T) -> bool, a: seq<T>, b: seq<T>)
    requires TotalOrder(leq) && Sorted(leq, a) && Sorted(leq, b) && multiset(a) == multiset(b) && a != [] && b != []
    ensures a[0] == b[0]
  {
    assert a[0] in multiset(a) && b[0] in multiset(b);
    assert a[0] in b && b[0] in a;
  }

  lemma TailMultiset<T>(s: seq<T>)
    requires s != []
    ensures multiset(s[1..]) == multiset(s) - multiset{s[0]}
  {
    assert s == [s[0]] + s[1..];
  }

  lemma SameLength<T>(a: seq<T>, b: seq<T>)
    requires multiset(a) == multiset(b)
    ensures |a| == |b|
  {
    assert |multiset(a)| == |a| && |multiset(b)| == |b|;
  }

  lemma {:induction false} SortedUnique<T(!new)>(leq: (T, T) -> bool, a: seq<T>, b: seq<T>)
    requires TotalOrder(leq) && Sorted(leq, a) && Sorted(leq, b) && multiset(a) == multiset(b)
    ensures a == b
  {
    SameLength(a, b);
    if a != [] {
      LeastIsFirst(leq, a, b);
      TailMultiset(a);
      TailMultiset(b);
      SortedUnique(leq, a[1..], b[1..]);
      ConsEqual(a, b);
    }
  }

  lemma ConsEqual<T>(a: seq<T>, b: seq<T>)
    requires a != [] && b != [] && a[0] == b[0] && a[1..] == b[1..]
    ensures a == b
  {
    assert a == [a[0]] + a[1..] && b == [b[0]] + b[1..];
  }

  /** Sorting by a total order is canonical: two lists sort to the same exactly when they are rearrangements. */
  lemma SortCanonicalIff<T(!new)>(leq: (T, T) -> bool, a: seq<T>, b: seq<T>)
    requires TotalOrder(leq)
    ensures Sort(leq, a) == Sort(leq, b) <==> multiset(a) == multiset(b)
  {
    SortSorts(leq, a);
    SortSorts(leq, b);
    if multiset(a) == multiset(b) {
      SortedUnique(leq, Sort(leq, a), Sort(leq, b));
    }
  }

  predicate CharLeq(a: char, b: char) {
    a <= b
  }

  function StringLeq(): (string, string) -> bool {
    LexOrder(CharLeq)
  }

  /** Strings with different first characters compare by those. */
  lemma FirstCharDecides(a: string, b: string)
    requires a != [] && b != [] && a[0] > b[0]
    ensures !StringLeq()(a, b)
  {
    assert StringLeq()(a, b) == Lex(CharLeq, a, b);
  }

  function StringsLeq(): (seq<string>, seq<string>) -> bool {
    LexOrder(StringLeq())
  }

  /** A claim row compares by digest, then by its evidence ids. */
  function RowLeq(): (ClaimRow, ClaimRow) -> bool {
    (a: ClaimRow, b: ClaimRow) => Lex(StringsLeq(), [[a.digest], a.ids], [[b.digest], b.ids])
  }

  /** A tool row compares by origin, node, tool and status. */
  function ToolLeq(): (ToolRow, ToolRow) -> bool {
    (a: ToolRow, b: ToolRow) => Lex(StringLeq(), ToolKey(a), ToolKey(b))
  }

  /** The two agree before `i` and differ there. */
  ghost predicate DifferFirstAt<T>(a: seq<T>, b: seq<T>, i: nat) {
    i < |a| && i < |b| && a[..i] == b[..i] && a[i] != b[i]
  }

  lemma DifferFirstCons<T>(a: seq<T>, b: seq<T>, i: nat)
    requires a != [] && b != [] && a[0] == b[0]
    ensures DifferFirstAt(a[1..], b[1..], i) <==> DifferFirstAt(a, b, i + 1)
  {
    if i < |a[1..]| && i < |b[1..]| {
      assert a[..i + 1] == [a[0]] + a[1..][..i] && b[..i + 1] == [b[0]] + b[1..][..i];
      assert a[..i + 1][1..] == a[1..][..i] && b[..i + 1][1..] == b[1..][..i];
    }
  }

  lemma DiffersAtOnce<T>(a: seq<T>, b: seq<T>, i: nat)
    requires a != [] && b != [] && a[0] != b[0]
    ensures DifferFirstAt(a, b, i) <==> i == 0
  {
    if 0 < i < |a| && i < |b| {
      assert a[..i][0] == a[0] && b[..i][0] == b[0];
    }
  }

  lemma LexCons<T>(leq: (T, T) -> bool, x: T, a: seq<T>, y: T, b: seq<T>)
    ensures Lex(leq, [x] + a, [y] + b) <==> if x == y then Lex(leq, a, b) else leq(x, y)
  {
    assert ([x] + a)[1..] == a && ([y] + b)[1..] == b;
  }

  lemma LexOne<T>(leq: (T, T) -> bool, x: T, y: T)
    ensures Lex(leq, [x], [y]) <==> x == y || leq(x, y)
  {
  }

  lemma {:induction false} LexRefl<T>(leq: (T, T) -> bool, a: seq<T>)
    ensures Lex(leq, a, a)
  {
    if a != [] {
      LexRefl(leq, a[1..]);
    }
  }

  /** A sequence comes before another exactly if it is a prefix of it or smaller where they first differ. */
  lemma {:induction false} LexIff<T(!new)>(leq: (T, T) -> bool, a: seq<T>, b: seq<T>)
    ensures Lex(leq, a, b) <==> a <= b || exists i: nat :: DifferFirstAt(a, b, i) && leq(a[i], b[i])
  {
    if a != [] && b != [] {
      if a[0] == b[0] {
        LexIff(leq, a[1..], b[1..]);
        assert a == [a[0]] + a[1..] && b == [b[0]] + b[1..];
        assert a <= b <==> a[1..] <= b[1..];
        if i: nat :| DifferFirstAt(a, b, i) && leq(a[i], b[i]) {
          DifferFirstCons(a, b, i - 1);
          assert leq(a[1..][i - 1], b[1..][i - 1]);
        }
        if i: nat :| DifferFirstAt(a[1..], b[1..], i) && leq(a[1..][i], b[1..][i]) {
          DifferFirstCons(a, b, i);
          assert leq(a[i + 1], b[i + 1]);
        }
      } else {
        assert DifferFirstAt(a, b, 0);
        forall i: nat | DifferFirstAt(a, b, i) ensures i == 0 {
          DiffersAtOnce(a, b, i);
        }
      }
    }
  }

  /** Strings compare by the code point at which they first differ. */
  ghost predicate Before(a: string, b: string) {
    a <= b || exists i: nat :: DifferFirstAt(a, b, i) && a[i] < b[i]
  }

  lemma StringLeqIff(a: string, b: string)
    ensures StringLeq()(a, b) <==> Before(a, b)
  {
    LexIff(CharLeq, a, b);
    if i: nat :| DifferFirstAt(a, b, i) && CharLeq(a[i], b[i]) {
      assert a[i] < b[i];
    }
    if i: nat :| DifferFirstAt(a, b, i) && a[i] < b[i] {
      assert CharLeq(a[i], b[i]);
    }
  }

  /** Tool rows compare by origin, then node, then tool, then status. */
  lemma ToolLeqIff(a: ToolRow, b: ToolRow)
    ensures ToolLeq()(a, b) <==>
            if a.origin != b.origin then Before(a.origin, b.origin)
            else if a.node != b.node then Before(a.node, b.node)
            else if a.tool != b.tool then Before(a.tool, b.tool)
            else Before(a.status, b.status)
  {
    var leq := StringLeq();
    assert ToolKey(a) == [a.origin] + [a.node, a.tool, a.status] && ToolKey(b) == [b.origin] + [b.node, b.tool, b.status];
    assert [a.node, a.tool, a.status] == [a.node] + [a.tool, a.status] && [b.node, b.tool, b.status] == [b.node] + [b.tool, b.status];
    assert [a.tool, a.status] == [a.tool] + [a.status] && [b.tool, b.status] == [b.tool] + [b.status];
    LexCons(leq, a.origin, [a.node, a.tool, a.status], b.origin, [b.node, b.tool, b.status]);
    LexCons(leq, a.node, [a.tool, a.status], b.node, [b.tool, b.status]);
    LexCons(leq, a.tool, [a.status], b.tool, [b.status]);
    LexOne(leq, a.status, b.status);
    StringLeqIff(a.origin, b.origin);
    StringLeqIff(a.node, b.node);
    StringLeqIff(a.tool, b.tool);
    StringLeqIff(a.status, b.status);
  }

  /** Claim rows compare by digest, and those of one digest by their ids. */
  lemma RowLeqIff(a: ClaimRow, b: ClaimRow)
    ensures RowLeq()(a, b) <==> if a.digest != b.digest then Before(a.digest, b.digest) else Lex(StringLeq(), a.ids, b.ids)
  {
    var x, y := [a.digest], [b.digest];
    assert [x, a.ids] == [x] + [a.ids] && [y, b.ids] == [y] + [b.ids];
    LexCons(StringsLeq(), x, [a.ids], y, [b.ids]);
    LexOne(StringsLeq(), a.ids, b.ids);
    LexOne(StringLeq(), a.digest, b.digest);
    assert x[0] == a.digest && y[0] == b.digest;
    LexRefl(StringLeq(), a.ids);
    StringLeqIff(a.digest, b.digest);
  }

  lemma OrdersTotal()
    ensures TotalOrder(StringLeq()) && TotalOrder(StringsLeq())
  {
    assert TotalOrder(CharLeq);
    LexIsTotal(CharLeq);
    LexIsTotal(StringLeq());
  }

  lemma RowLeqTotal()
    ensures TotalOrder(RowLeq())
  {
    OrdersTotal();
    forall a: ClaimRow, b: ClaimRow
      ensures RowLeq()(a, b) || RowLeq()(b, a)
      ensures RowLeq()(a, b) && RowLeq()(b, a) ==> a == b
    {
      var x, y := [[a.digest], a.ids], [[b.digest], b.ids];
      LexTotal(StringsLeq(), x, y);
      assert x == y ==> x[0][0] == y[0][0] && x[1] == y[1];
    }
    forall a: ClaimRow, b: ClaimRow, c: ClaimRow | RowLeq()(a, b) && RowLeq()(b, c) ensures RowLeq()(a, c) {
      LexTransitive(StringsLeq(), [[a.digest], a.ids], [[b.digest], b.ids], [[c.digest], c.ids]);
    }
  }

  lemma ToolLeqTotal()
    ensures TotalOrder(ToolLeq())
  {
    OrdersTotal();
    forall a: ToolRow, b: ToolRow
      ensures ToolLeq()(a, b) || ToolLeq()(b, a)
      ensures ToolLeq()(a, b) && ToolLeq()(b, a) ==> a == b
    {
      var x, y := ToolKey(a), ToolKey(b);
      LexTotal(StringLeq(), x, y);
      assert x == y ==> x[0] == y[0] && x[1] == y[1] && x[2] == y[2] && x[3] == y[3];
    }
    forall a: ToolRow, b: ToolRow, c: ToolRow | ToolLeq()(a, b) && ToolLeq()(b, c) ensures ToolLeq()(a, c) {
      LexTransitive(StringLeq(), ToolKey(a), ToolKey(b), ToolKey(c));
    }
  }

  // ---------- The payload ----------

  datatype Claim = Claim(text: string, ids: seq<string>)

  datatype ClaimRow = ClaimRow(digest: string, ids: seq<string>)

  datatype ToolRow = ToolRow(node: string, origin: string, tool: string, status: string)

  function ToolKey(r: ToolRow): seq<string> {
    [r.origin, r.node, r.tool, r.status]
  }

  /** The inputs whose order and value both count. */
  datatype Fixed = Fixed(job: string, attempt: int, profile: string, repairs: int, provenanceOk: bool, maxCalls: int, plan: seq<string>)

  datatype Snapshot = Snapshot(
    fixed: Fixed, draft: string, findings: seq<string>, claims: seq<Claim>, linked: seq<string>, tools: seq<ToolRow>)

  datatype Payload = Payload(
    fixed: Fixed, draft: string, findings: seq<string>, claims: seq<ClaimRow>, linked: seq<string>, tools: seq<ToolRow>,
    calls: nat)

  type Digest = string -> string

  ghost predicate Injective(hash: Digest) {
    forall a, b :: hash(a) == hash(b) ==> a == b
  }

  function RowOf(hash: Digest, c: Claim): ClaimRow {
    ClaimRow(hash(c.text), Sort(StringLeq(), c.ids))
  }

  function Mapped<A, B>(f: A -> B, s: seq<A>): (r: seq<B>)
    ensures |r| == |s| && forall i :: 0 <= i < |s| ==> r[i] == f(s[i])
  {
    seq(|s|, i requires 0 <= i < |s| => f(s[i]))
  }

  function ClaimsCanonical(hash: Digest, claims: seq<Claim>): seq<ClaimRow> {
    Sort(RowLeq(), Mapped(c => RowOf(hash, c), claims))
  }

  function PayloadOf(hash: Digest, s: Snapshot): Payload {
    Payload(s.fixed, hash(s.draft), Mapped(hash, s.findings), ClaimsCanonical(hash, s.claims),
            Sort(StringLeq(), s.linked), Sort(ToolLeq(), s.tools), |s.tools|)
  }

  /** The claim rows are the claims' digests with their ids in order, and in order themselves. */
  lemma ClaimsAreSorted(hash: Digest, claims: seq<Claim>)
    ensures var rows := ClaimsCanonical(hash, claims);
            Sorted(RowLeq(), rows) && multiset(rows) == multiset(Mapped(c => RowOf(hash, c), claims))
    ensures forall c: Claim ::
              (var row := RowOf(hash, c); row.digest == hash(c.text) && Sorted(StringLeq(), row.ids) && multiset(row.ids) == multiset(c.ids))
  {
    RowLeqTotal();
    SortSorts(RowLeq(), Mapped(c => RowOf(hash, c), claims));
    OrdersTotal();
    forall c: Claim
      ensures Sorted(StringLeq(), RowOf(hash, c).ids) && multiset(RowOf(hash, c).ids) == multiset(c.ids)
    {
      SortSorts(StringLeq(), c.ids);
    }
  }

  /** Every unordered part of the payload is the snapshot's, in order, and the tool calls are counted. */
  lemma PayloadIsSorted(hash: Digest, s: Snapshot)
    ensures var p := PayloadOf(hash, s);
            && Sorted(RowLeq(), p.claims) && multiset(p.claims) == multiset(Mapped(c => RowOf(hash, c), s.claims))
            && Sorted(StringLeq(), p.linked) && multiset(p.linked) == multiset(s.linked)
            && Sorted(ToolLeq(), p.tools) && multiset(p.tools) == multiset(s.tools)
            && p.calls == |s.tools|
  {
    ClaimsAreSorted(hash, s.claims);
    OrdersTotal();
    SortSorts(StringLeq(), s.linked);
    ToolLeqTotal();
    SortSorts(ToolLeq(), s.tools);
  }

  /** `_claims_canonical`: one row per claim, then sorted in place. */
  method BuildClaims(hash: Digest, claims: seq<Claim>) returns (rows: seq<ClaimRow>)
    ensures rows == ClaimsCanonical(hash, claims)
  {
    rows := [];
    for i := 0 to |claims|
      invariant rows == Mapped(c => RowOf(hash, c), claims[..i])
    {
      rows := rows + [ClaimRow(hash(claims[i].text), Sort(StringLeq(), claims[i].ids))];
    }
    assert claims[..|claims|] == claims;
    rows := Sort(RowLeq(), rows);
  }

  // ---------- What it identifies ----------

  /** A claim up to the order of its evidence ids. */
  datatype Meaning = Meaning(text: string, ids: multiset<string>)

  function MeaningOf(c: Claim): Meaning {
    Meaning(c.text, multiset(c.ids))
  }

  lemma RowMeansIff(hash: Digest, c: Claim, d: Claim)
    requires Injective(hash)
    ensures RowOf(hash, c) == RowOf(hash, d) <==> MeaningOf(c) == MeaningOf(d)
  {
    OrdersTotal();
    SortCanonicalIff(StringLeq(), c.ids, d.ids);
  }

  /** Two ways of looking at elements that tell the same elements apart. */
  ghost predicate SameDistinctions<A(!new), B(!new), C(!new)>(f: A -> B, g: A -> C) {
    forall x, y :: f(x) == f(y) <==> g(x) == g(y)
  }

  lemma CountMapped<A, B>(f: A -> B, s: seq<A>, x: A)
    requires s != []
    ensures multiset(Mapped(f, s))[f(x)] == multiset(Mapped(f, s[1..]))[f(x)] + if f(s[0]) == f(x) then 1 else 0
  {
    assert Mapped(f, s) == [f(s[0])] + Mapped(f, s[1..]);
  }

  lemma {:induction false} CountsAgree<A(!new), B(!new), C(!new)>(f: A -> B, g: A -> C, s: seq<A>, x: A)
    requires SameDistinctions(f, g)
    ensures multiset(Mapped(f, s))[f(x)] == multiset(Mapped(g, s))[g(x)]
  {
    if s != [] {
      CountsAgree(f, g, s[1..], x);
      CountMapped(f, s, x);
      CountMapped(g, s, x);
    }
  }

  lemma MappedEqual<A(!new), B(!new), C(!new)>(f: A -> B, g: A -> C, a: seq<A>, b: seq<A>)
    requires SameDistinctions(f, g) && multiset(Mapped(f, a)) == multiset(Mapped(f, b))
    ensures multiset(Mapped(g, a)) == multiset(Mapped(g, b))
  {
    var ga, gb := multiset(Mapped(g, a)), multiset(Mapped(g, b));
    forall y ensures ga[y] == gb[y] {
      if y in ga {
        var i :| 0 <= i < |a| && Mapped(g, a)[i] == y;
        CountsAgree(f, g, a, a[i]);
        CountsAgree(f, g, b, a[i]);
      } else if y in gb {
        var i :| 0 <= i < |b| && Mapped(g, b)[i] == y;
        CountsAgree(f, g, a, b[i]);
        CountsAgree(f, g, b, b[i]);
      }
    }
  }

  lemma ClaimsCanonicalIff(hash: Digest, a: seq<Claim>, b: seq<Claim>)
    requires Injective(hash)
    ensures ClaimsCanonical(hash, a) == ClaimsCanonical(hash, b)
            <==> multiset(Mapped(MeaningOf, a)) == multiset(Mapped(MeaningOf, b))
  {
    var row := (c: Claim) => RowOf(hash, c);
    forall c, d ensures row(c) == row(d) <==> MeaningOf(c) == MeaningOf(d) {
      RowMeansIff(hash, c, d);
    }
    RowLeqTotal();
    SortCanonicalIff(RowLeq(), Mapped(row, a), Mapped(row, b));
    if multiset(Mapped(row, a)) == multiset(Mapped(row, b)) {
      MappedEqual(row, MeaningOf, a, b);
    }
    if multiset(Mapped(MeaningOf, a)) == multiset(Mapped(MeaningOf, b)) {
      MappedEqual(MeaningOf, row, a, b);
    }
  }

  lemma FindingsIff(hash: Digest, a: seq<string>, b: seq<string>)
    requires Injective(hash)
    ensures Mapped(hash, a) == Mapped(hash, b) <==> a == b
  {
    if Mapped(hash, a) == Mapped(hash, b) {
      assert |a| == |b|;
      forall i | 0 <= i < |a| ensures a[i] == b[i] {
        assert Mapped(hash, a)[i] == Mapped(hash, b)[i];
      }
    }
  }

  /**
   What the grading payload identifies: two snapshots have the same payload exactly when they agree on everything
   that is ordered and are rearrangements of each other in claims, cited ids, linked ids and tool rows.
   */
  lemma PayloadEqualIff(hash: Digest, a: Snapshot, b: Snapshot)
    requires Injective(hash)
    ensures PayloadOf(hash, a) == PayloadOf(hash, b) <==>
            && a.fixed == b.fixed && a.draft == b.draft && a.findings == b.findings
            && multiset(Mapped(MeaningOf, a.claims)) == multiset(Mapped(MeaningOf, b.claims))
            && multiset(a.linked) == multiset(b.linked)
            && multiset(a.tools) == multiset(b.tools)
  {
    ClaimsCanonicalIff(hash, a.claims, b.claims);
    OrdersTotal();
    SortCanonicalIff(StringLeq(), a.linked, b.linked);
    ToolLeqTotal();
    SortCanonicalIff(ToolLeq(), a.tools, b.tools);
    FindingsIff(hash, a.findings, b.findings);
    assert multiset(a.tools) == multiset(b.tools) ==> |multiset(a.tools)| == |a.tools| && |a.tools| == |b.tools|;
  }
}
