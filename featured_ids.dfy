/**
 * The featured-id resolver (`get_featured_ids`): the curated featured
 * collection ids followed by a few of the caller's recently used ones.
 * A signed-in caller's recent ids come from the database rows of the user's
 * recent collections (in the order the query returns them); an anonymous
 * caller's come from the session.
 */
module FeaturedIdResolver {
  import opened Wrappers
  import opened RequestParams
  import opened Filters

  datatype Caller =
    | SignedIn(recentRows: seq<string>)
    | Anonymous(sessionRecent: Option<Value>)

  ghost predicate NoDuplicates<T>(s: seq<T>)
  {
    forall i, j :: 0 <= i < j < |s| ==> s[i] != s[j]
  }

  function Min(a: nat, b: nat): nat
  {
    if a <= b then a else b
  }

  /** Ruby's `take(n)`: the first `n` elements, or all of them. */
  function Take<T>(s: seq<T>, n: nat): seq<T>
  {
    s[..Min(n, |s|)]
  }

  /** Ruby's `uniq`: the first occurrence of every element, in order. */
  function Uniq<T(==)>(s: seq<T>): seq<T>
    decreases |s|
  {
    if s == [] then []
    else
      var u := Uniq(s[..|s| - 1]);
      if s[|s| - 1] in u then u else u + [s[|s| - 1]]
  }

  lemma {:induction false} UniqElements<T>(s: seq<T>)
    ensures forall x :: x in Uniq(s) <==> x in s
    decreases |s|
  {
    if s != [] {
      UniqElements(s[..|s| - 1]);
      assert s == s[..|s| - 1] + [s[|s| - 1]];
    }
  }

  lemma {:induction false} UniqNoDuplicates<T>(s: seq<T>)
    ensures NoDuplicates(Uniq(s))
    decreases |s|
  {
    if s != [] {
      UniqNoDuplicates(s[..|s| - 1]);
    }
  }

  /** `uniq` of a list that is a prefix of another is a prefix of the other's. */
  lemma {:induction false} UniqPrefix<T>(a: seq<T>, b: seq<T>)
    ensures Uniq(a) <= Uniq(a + b)
    decreases |b|
  {
    if b == [] {
      assert a + b == a;
    } else {
      var b' := b[..|b| - 1];
      assert (a + b)[..|a + b| - 1] == a + b';
      UniqPrefix(a, b');
    }
  }

  /** A list without duplicates is its own `uniq`. */
  lemma {:induction false} UniqOfDistinct<T>(s: seq<T>)
    requires NoDuplicates(s)
    ensures Uniq(s) == s
    decreases |s|
  {
    if s != [] {
      var s' := s[..|s| - 1];
      UniqOfDistinct(s');
      assert s[|s| - 1] !in s';
      assert s == s' + [s[|s| - 1]];
    }
  }

  /** A recent row is its collection id. */
  function RowId(row: string): string
  {
    row
  }

  /** `where('echo_id not in (?)', excluded)` on the recent rows, as intended. */
  function Without(rows: seq<string>, excluded: seq<string>): seq<string>
  {
    Unlisted(rows, RowId, excluded)
  }

  /**
   * What `where('echo_id not in (?)', ids)` selects as written: Rails
   * renders an empty id list as `(NULL)`, and `echo_id NOT IN (NULL)` is
   * never true in SQL, so with no curated ids no row is selected.
   */
  function SqlNotInAsWritten(rows: seq<string>, excluded: seq<string>): seq<string>
  {
    if excluded == [] then [] else Without(rows, excluded)
  }

  /** The signed-in branch as the source writes it. */
  function SignedInFeaturedAsWritten(curated: seq<string>, rows: seq<string>, recentCount: nat): seq<string>
  {
    curated + Take(SqlNotInAsWritten(rows, curated), recentCount)
  }

  /** The signed-in branch as intended: recent rows not already curated. */
  function SignedInFeatured(curated: seq<string>, rows: seq<string>, recentCount: nat): seq<string>
  {
    curated + Take(Without(rows, curated), recentCount)
  }

  /**
   * With no curated ids the as-written query loses every recent row: a
   * signed-in user with one recent collection gets no featured id at all.
   */
  lemma EmptyCuratedLosesRecents()
    ensures SignedInFeaturedAsWritten([], ["R1"], 2) == []
    ensures SignedInFeatured([], ["R1"], 2) == ["R1"]
  {
  }

  /** The anonymous branch: `(curated + recent).uniq.take(curated.size + N)`. */
  function AnonymousFeatured(curated: seq<string>, session: Option<Value>, recentCount: nat): seq<string>
  {
    Take(Uniq(curated + Wrap(session)), |curated| + recentCount)
  }

  /**
   * `get_featured_ids` as intended, with `RECENT_DATASET_COUNT` as
   * `recentCount`: the signed-in branch is the corrected `SignedInFeatured`,
   * not `SignedInFeaturedAsWritten`.
   */
  function GetFeaturedIds(curated: seq<string>, caller: Caller, recentCount: nat): seq<string>
  {
    match caller
    case SignedIn(rows) => SignedInFeatured(curated, rows, recentCount)
    case Anonymous(session) => AnonymousFeatured(curated, session, recentCount)
  }

  /**
   * Signed in: the curated list, then the first `recentCount` of the user's
   * rows that are not curated, in row order, or all of them when there are
   * fewer.
   */
  lemma {:induction false} SignedInFeaturedIds(curated: seq<string>, rows: seq<string>, recentCount: nat)
    ensures var r := GetFeaturedIds(curated, SignedIn(rows), recentCount);
      && curated <= r
      && |r| == |curated| + Min(recentCount, |Without(rows, curated)|)
      && r[|curated|..] <= Without(rows, curated)
      && (forall i :: |curated| <= i < |r| ==> r[i] !in curated && r[i] in rows)
    ensures |Without(rows, curated)| <= recentCount ==>
      forall x :: x in rows && x !in curated ==> x in GetFeaturedIds(curated, SignedIn(rows), recentCount)
  {
    var rest := Without(rows, curated);
    UnlistedElements(rows, RowId, curated);
    var r := GetFeaturedIds(curated, SignedIn(rows), recentCount);
    assert r == curated + Take(rest, recentCount);
    assert r[|curated|..] == Take(rest, recentCount);
    forall i | |curated| <= i < |r|
      ensures r[i] !in curated && r[i] in rows
    {
      assert r[i] == rest[i - |curated|];
      assert rest[i - |curated|] in rest;
    }
    if |rest| <= recentCount {
      assert Take(rest, recentCount) == rest;
    }
  }

  /**
   * Anonymous: the first `|curated| + recentCount` ids of the de-duplicated
   * combination, or all of it when it is shorter; no duplicates, and each id
   * curated or from the session.
   */
  lemma {:induction false} AnonymousFeaturedIds(curated: seq<string>, session: Option<Value>, recentCount: nat)
    ensures var r := GetFeaturedIds(curated, Anonymous(session), recentCount);
      && NoDuplicates(r)
      && |r| == Min(|curated| + recentCount, |Uniq(curated + Wrap(session))|)
      && r <= Uniq(curated + Wrap(session))
      && (forall x :: x in r ==> x in curated || x in Wrap(session))
  {
    var all := curated + Wrap(session);
    var u := Uniq(all);
    var r := GetFeaturedIds(curated, Anonymous(session), recentCount);
    assert r == u[..Min(|curated| + recentCount, |u|)];
    UniqNoDuplicates(all);
    UniqElements(all);
    assert forall x :: x in r ==> x in u;
  }

  /**
   * Anonymous, with a curated list free of duplicates: the curated list
   * comes first and at most `recentCount` session ids follow, none of them
   * curated.
   */
  lemma {:induction false} AnonymousFeaturedKeepsCurated(curated: seq<string>, session: Option<Value>, recentCount: nat)
    requires NoDuplicates(curated)
    ensures var r := GetFeaturedIds(curated, Anonymous(session), recentCount);
      && curated <= r
      && (forall i :: |curated| <= i < |r| ==> r[i] !in curated && r[i] in Wrap(session))
  {
    var all := curated + Wrap(session);
    var u := Uniq(all);
    var r := GetFeaturedIds(curated, Anonymous(session), recentCount);
    assert r == u[..Min(|curated| + recentCount, |u|)];
    UniqNoDuplicates(all);
    UniqElements(all);
    UniqOfDistinct(curated);
    UniqPrefix(curated, Wrap(session));
    assert u[..|curated|] == curated;
    forall i | |curated| <= i < |r|
      ensures r[i] !in curated && r[i] in Wrap(session)
    {
      assert r[i] == u[i];
      assert r[i] in all;
    }
  }

  lemma AnonymousExample()
    ensures GetFeaturedIds(["F1", "F2"], Anonymous(Some(List(["F1", "R1", "R2", "R3"]))), 2)
      == ["F1", "F2", "R1", "R2"]
  {
    var all := ["F1", "F2", "F1", "R1", "R2", "R3"];
    assert ["F1", "F2"] + ["F1", "R1", "R2", "R3"] == all;
    assert Uniq(all[..1]) == ["F1"] by {
      assert all[..1][..0] == [];
    }
    assert Uniq(all[..2]) == ["F1", "F2"] by {
      assert all[..2][..1] == all[..1];
    }
    assert Uniq(all[..3]) == ["F1", "F2"] by {
      assert all[..3][..2] == all[..2];
    }
    assert Uniq(all[..4]) == ["F1", "F2", "R1"] by {
      assert all[..4][..3] == all[..3];
    }
    assert Uniq(all[..5]) == ["F1", "F2", "R1", "R2"] by {
      assert all[..5][..4] == all[..4];
    }
    assert Uniq(all) == ["F1", "F2", "R1", "R2", "R3"] by {
      assert all[..5] == all[..|all| - 1];
    }
  }
}
