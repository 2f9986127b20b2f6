/** The draw of `exam_engine.select` for a flat pool: rank every question by a
    keyed digest, keep the first k, and order the paper by a second digest. */
module ExamEngine {

  /** The digest of (sitter, salt, question); the salt is (variant, ordering?). */
  type Digest = (nat, (nat, bool), string) -> int

  function Insert(f: string -> int, x: string, s: seq<string>): seq<string> {
    if s == [] then [x]
    else if f(x) <= f(s[0]) then [x] + s
    else [s[0]] + Insert(f, x, s[1..])
  }

  /** A stable sort by `f`. */
  function SortBy(f: string -> int, s: seq<string>): seq<string> {
    if s == [] then [] else Insert(f, s[0], SortBy(f, s[1..]))
  }

  function Select(digest: Digest, sitter: nat, variant: nat, pool: seq<string>, total: nat): seq<string> {
    var ranked := SortBy(q => digest(sitter, (variant, false), q), pool);
    var chosen := if total < |ranked| then ranked[..total] else ranked;
    SortBy(q => digest(sitter, (variant, true), q), chosen)
  }

  ghost predicate Distinct(s: seq<string>) {
    forall i, j :: 0 <= i < j < |s| ==> s[i] != s[j]
  }

  lemma {:induction false} InsertKeeps(f: string -> int, x: string, s: seq<string>)
    ensures multiset(Insert(f, x, s)) == multiset(s) + multiset{x}
  {
    if s != [] && f(x) > f(s[0]) {
      InsertKeeps(f, x, s[1..]);
      assert s == [s[0]] + s[1..];
    }
  }

  lemma {:induction false} SortKeeps(f: string -> int, s: seq<string>)
    ensures multiset(SortBy(f, s)) == multiset(s)
  {
    if s != [] {
      SortKeeps(f, s[1..]);
      InsertKeeps(f, s[0], SortBy(f, s[1..]));
      assert s == [s[0]] + s[1..];
    }
  }

  ghost predicate Sorted(f: string -> int, s: seq<string>) {
    forall i, j :: 0 <= i < j < |s| ==> f(s[i]) <= f(s[j])
  }

  lemma {:induction false} InsertSorts(f: string -> int, x: string, s: seq<string>)
    requires Sorted(f, s)
    ensures Sorted(f, Insert(f, x, s))
  {
    if s != [] && f(x) > f(s[0]) {
      InsertSorts(f, x, s[1..]);
      InsertKeeps(f, x, s[1..]);
      var t := Insert(f, x, s[1..]);
      forall j | 0 <= j < |t| ensures f(s[0]) <= f(t[j]) {
        assert t[j] in multiset(t);
        assert t[j] == x || t[j] in s[1..];
      }
    }
  }

  lemma {:induction false} SortSorts(f: string -> int, s: seq<string>)
    ensures Sorted(f, SortBy(f, s))
  {
    if s != [] {
      SortSorts(f, s[1..]);
      InsertSorts(f, s[0], SortBy(f, s[1..]));
    }
  }

  lemma {:induction false} DistinctIffNoRepeat(s: seq<string>)
    ensures Distinct(s) <==> forall x :: multiset(s)[x] <= 1
  {
    if s != [] {
      var n := |s| - 1;
      DistinctIffNoRepeat(s[..n]);
      assert s == s[..n] + [s[n]];
      if Distinct(s) {
        assert s[n] !in s[..n];
      } else if i, j :| 0 <= i < j < |s| && s[i] == s[j] {
        assert s[i] in s[..j];
        assert s == s[..j] + [s[j]] + s[j + 1..];
        assert multiset(s)[s[i]] >= multiset(s[..j])[s[i]] + 1;
      }
    }
  }

  /** Cutting a sorted sequence keeps only elements that rank no later than the rest. */
  lemma CutKeepsFirst(f: string -> int, s: seq<string>, k: nat)
    requires Sorted(f, s) && k <= |s|
    ensures forall q, p :: q in multiset(s[..k]) && p in multiset(s[k..]) ==> f(q) <= f(p)
  {
    forall q, p | q in multiset(s[..k]) && p in multiset(s[k..]) ensures f(q) <= f(p) {
      var i :| 0 <= i < k && s[..k][i] == q;
      var j :| 0 <= j < |s| - k && s[k..][j] == p;
      assert s[i] == q && s[k + j] == p;
    }
  }

  lemma SameSize(s: seq<string>, t: seq<string>)
    requires multiset(s) == multiset(t)
    ensures |s| == |t|
  {
    assert |multiset(s)| == |s|;
  }

  lemma Cut(digest: Digest, sitter: nat, variant: nat, pool: seq<string>, total: nat)
    returns (chosen: seq<string>, left: seq<string>)
    ensures |chosen| == (if total < |pool| then total else |pool|)
    ensures multiset(chosen) + multiset(left) == multiset(pool)
    ensures forall q, p :: q in multiset(chosen) && p in multiset(left) ==>
              digest(sitter, (variant, false), q) <= digest(sitter, (variant, false), p)
    ensures Select(digest, sitter, variant, pool, total) == SortBy(q => digest(sitter, (variant, true), q), chosen)
  {
    var f := q => digest(sitter, (variant, false), q);
    var ranked := SortBy(f, pool);
    SortKeeps(f, pool);
    SortSorts(f, pool);
    SameSize(ranked, pool);
    var k := if total < |ranked| then total else |ranked|;
    chosen, left := ranked[..k], ranked[k..];
    assert total >= |ranked| ==> chosen == ranked;
    assert ranked == chosen + left;
    CutKeepsFirst(f, ranked, k);
  }

  /** A draw is min(total, pool) questions of the pool, no question twice, and
      no question left out ranks before one that was drawn. */
  lemma SelectDraws(digest: Digest, sitter: nat, variant: nat, pool: seq<string>, total: nat)
    ensures var paper := Select(digest, sitter, variant, pool, total);
            && |paper| == (if total < |pool| then total else |pool|)
            && multiset(paper) <= multiset(pool)
            && (Distinct(pool) ==> Distinct(paper))
            && (forall q, p :: q in multiset(paper) && p in multiset(pool) - multiset(paper) ==>
                  digest(sitter, (variant, false), q) <= digest(sitter, (variant, false), p))
            && Sorted(q => digest(sitter, (variant, true), q), paper)
  {
    var g := q => digest(sitter, (variant, true), q);
    var chosen, left := Cut(digest, sitter, variant, pool, total);
    SortKeeps(g, chosen);
    SortSorts(g, chosen);
    SameSize(SortBy(g, chosen), chosen);
    assert multiset(pool) - multiset(chosen) == multiset(left);
    DistinctIffNoRepeat(pool);
    DistinctIffNoRepeat(SortBy(g, chosen));
  }
}
