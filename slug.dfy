/**
 * Slug disambiguation of `Show.save`: try the slugified name, then
 * `name-1`, `name-2`, ... until no other show uses the candidate.
 * `slugify` itself is a library call and is not modelled: its result is
 * the `base` parameter.
 */
module Slugs {
  import opened Text

  /** `f"{base_slug}-{counter}"` */
  function Candidate(base: string, k: nat): string {
    base + "-" + Decimal(k)
  }

  lemma CandidateInjective(base: string, j: nat, k: nat)
    ensures Candidate(base, j) == Candidate(base, k) <==> j == k
  {
    if Candidate(base, j) == Candidate(base, k) {
      var n := |base| + 1;
      assert Candidate(base, j)[n..] == Decimal(j);
      assert Candidate(base, k)[n..] == Decimal(k);
      DecimalInjective(j, k);
    }
  }

  lemma CandidateIsNotBase(base: string, k: nat)
    ensures Candidate(base, k) != base
  {
    assert |Candidate(base, k)| > |base|;
  }

  /** The slug the loop settles on: the base when it is free, otherwise the
      first numbered candidate no other show uses. */
  ghost predicate IsFirstFree(base: string, taken: set<string>, slug: string) {
    && slug !in taken
    && (base !in taken ==> slug == base)
    && (base in taken ==>
          exists k :: 1 <= k && slug == Candidate(base, k)
            && forall j :: 1 <= j < k ==> Candidate(base, j) in taken)
  }

  /** Every slug in `tried` is the base or a candidate numbered below `bound`. */
  ghost predicate TriedBelow(base: string, tried: set<string>, bound: nat) {
    forall t :: t in tried ==> t == base || exists j :: 1 <= j < bound && t == Candidate(base, j)
  }

  /** The loop of `Show.save` over `Show.objects.filter(slug=slug).exclude(pk=self.pk)`;
      `taken` holds the slugs of every other show. */
  method ChooseSlug(base: string, taken: set<string>) returns (slug: string)
    ensures IsFirstFree(base, taken, slug)
  {
    slug := base;
    var counter := 1;
    ghost var tried: set<string> := {};
    while slug in taken
      invariant counter >= 1
      invariant slug == if counter == 1 then base else Candidate(base, counter - 1)
      invariant counter > 1 ==> base in taken
      invariant forall j :: 1 <= j < counter - 1 ==> Candidate(base, j) in taken
      invariant tried <= taken && slug !in tried && TriedBelow(base, tried, counter - 1)
      decreases |taken - tried|
    {
      SlugStep(base, taken, tried, slug, counter);
      tried := tried + {slug};
      slug := Candidate(base, counter);
      counter := counter + 1;
    }
    FirstFreeFound(base, taken, slug, counter);
  }

  /** When the loop stops, its invariant gives the contract. */
  lemma FirstFreeFound(base: string, taken: set<string>, slug: string, counter: nat)
    requires counter >= 1 && slug !in taken
    requires slug == if counter == 1 then base else Candidate(base, counter - 1)
    requires counter > 1 ==> base in taken
    requires forall j :: 1 <= j < counter - 1 ==> Candidate(base, j) in taken
    ensures IsFirstFree(base, taken, slug)
  {
    if base in taken {
      assert counter > 1 && slug == Candidate(base, counter - 1);
    }
  }

  /** One turn of the loop keeps its invariant and shrinks the untried
      part of `taken`. */
  lemma SlugStep(base: string, taken: set<string>, tried: set<string>, slug: string, counter: nat)
    requires counter >= 1 && slug in taken
    requires slug == if counter == 1 then base else Candidate(base, counter - 1)
    requires counter > 1 ==> base in taken
    requires forall j :: 1 <= j < counter - 1 ==> Candidate(base, j) in taken
    requires tried <= taken && slug !in tried && TriedBelow(base, tried, counter - 1)
    ensures base in taken
    ensures forall j :: 1 <= j < counter ==> Candidate(base, j) in taken
    ensures tried + {slug} <= taken && Candidate(base, counter) !in tried + {slug}
    ensures TriedBelow(base, tried + {slug}, counter)
    ensures |taken - (tried + {slug})| < |taken - tried|
  {
    assert taken - (tried + {slug}) < taken - tried;
    TriedStep(base, tried, slug, counter);
    forall j | 1 <= j < counter ensures Candidate(base, j) in taken {
      if j == counter - 1 {
        assert Candidate(base, j) == slug;
      }
    }
  }

  /** Trying `slug` keeps the tried set described, and the next candidate
      has not been tried. */
  lemma TriedStep(base: string, tried: set<string>, slug: string, counter: nat)
    requires counter >= 1 && TriedBelow(base, tried, counter - 1)
    requires slug == if counter == 1 then base else Candidate(base, counter - 1)
    ensures TriedBelow(base, tried + {slug}, counter)
    ensures Candidate(base, counter) !in tried + {slug}
  {
    forall t | t in tried + {slug}
      ensures t == base || exists j :: 1 <= j < counter && t == Candidate(base, j)
    {
      if t == slug && counter > 1 {
        assert 1 <= counter - 1 < counter && t == Candidate(base, counter - 1);
      }
    }
    FreshCandidate(base, tried + {slug}, counter);
  }

  lemma FreshCandidate(base: string, tried: set<string>, counter: nat)
    requires TriedBelow(base, tried, counter)
    ensures Candidate(base, counter) !in tried
  {
    if Candidate(base, counter) in tried {
      CandidateIsNotBase(base, counter);
      var j :| 1 <= j < counter && Candidate(base, counter) == Candidate(base, j);
      CandidateInjective(base, j, counter);
    }
  }

  /** The contract pins the slug down: there is only one first free candidate. */
  lemma FirstFreeIsUnique(base: string, taken: set<string>, s1: string, s2: string)
    requires IsFirstFree(base, taken, s1) && IsFirstFree(base, taken, s2)
    ensures s1 == s2
  {
    if base in taken {
      var k1 :| 1 <= k1 && s1 == Candidate(base, k1)
        && forall j :: 1 <= j < k1 ==> Candidate(base, j) in taken;
      var k2 :| 1 <= k2 && s2 == Candidate(base, k2)
        && forall j :: 1 <= j < k2 ==> Candidate(base, j) in taken;
      assert !(k1 < k2) && !(k2 < k1);
    }
  }
}
