/** The content models of the website application: the image fallback shared
    by articles, magazine issues and resources, and the slug that `save`
    derives for a record that has none. */
module WebsiteModels {
  import opened Common
  import opened Text

  // ---------------------------------------------------------------------
  // display_image
  // ---------------------------------------------------------------------

  /** The two image columns of a content record: an uploaded file (`Some`
      holds the URL the storage serves it under; a file field with an empty
      name is falsy) and an external image URL (nullable or blank). */
  datatype Picture = Picture(upload: Option<string>, externalUrl: Option<string>)

  /** The `display_image` property: the uploaded image if there is one, else
      the external URL if it is set, else the placeholder image, whose URL
      `placeholderUrl` is what `static("images/placeholder.jpg")` resolves
      to. Since that URL is never empty, a template always gets an image
      source. */
  function DisplayImage(p: Picture, placeholderUrl: string): (r: string)
    ensures placeholderUrl != "" ==> r != ""
    ensures Truthy(p.upload) ==> r == p.upload.value
    ensures !Truthy(p.upload) && Truthy(p.externalUrl) ==> r == p.externalUrl.value
    ensures !Truthy(p.upload) && !Truthy(p.externalUrl) ==> r == placeholderUrl
  {
    if Truthy(p.upload) then p.upload.value
    else if Truthy(p.externalUrl) then p.externalUrl.value
    else placeholderUrl
  }

  // ---------------------------------------------------------------------
  // Slugs
  // ---------------------------------------------------------------------

  /** How many characters of `slugify(title)` a derived slug starts from. */
  const BaseSlugLength: nat := 250

  /** `slugify(title)[:250]`: the slug the suffixes are appended to. */
  function BaseSlug(slugified: string): (r: string)
    ensures |r| <= BaseSlugLength
    ensures IsPrefix(r, slugified)
    ensures |slugified| <= BaseSlugLength ==> r == slugified
    ensures |slugified| > BaseSlugLength ==> r == slugified[..BaseSlugLength]
  {
    if |slugified| <= BaseSlugLength then slugified else slugified[..BaseSlugLength]
  }

  /** The `n`-th slug the loop probes: `base` itself, then `f"{base}-{n}"`. */
  function Candidate(base: string, n: nat): string {
    if n == 0 then base else base + "-" + Decimal(n)
  }

  /** Different suffixes never produce the same slug. */
  lemma CandidateInjective(base: string, m: nat, n: nat)
    requires Candidate(base, m) == Candidate(base, n)
    ensures m == n
  {
    if m != 0 && n != 0 {
      assert Candidate(base, m)[|base| + 1..] == Decimal(m);
      assert Candidate(base, n)[|base| + 1..] == Decimal(n);
      DecimalInjective(m, n);
    }
  }

  /** `n` is the first probe that is free: every earlier probe is taken. */
  ghost predicate IsFirstFree(base: string, taken: set<string>, n: nat) {
    Candidate(base, n) !in taken && forall k :: 0 <= k < n ==> Candidate(base, k) in taken
  }

  /** The first free suffix is unique, so the derived slug is a function of
      the base and of the slugs already taken. */
  lemma FirstFreeUnique(base: string, taken: set<string>, m: nat, n: nat)
    requires IsFirstFree(base, taken, m) && IsFirstFree(base, taken, n)
    ensures m == n
  {
  }

  /** The first `n` probes, as a set. */
  ghost function Probes(base: string, n: nat): set<string> {
    set k | 0 <= k < n :: Candidate(base, k)
  }

  /** One more probe adds the next candidate to the set. */
  lemma ProbesSnoc(base: string, n: nat)
    ensures Probes(base, n + 1) == Probes(base, n) + {Candidate(base, n)}
  {
  }

  /** The next candidate is none of the earlier probes. */
  lemma CandidateFresh(base: string, n: nat)
    ensures Candidate(base, n) !in Probes(base, n)
  {
    if Candidate(base, n) in Probes(base, n) {
      var k :| 0 <= k < n && Candidate(base, k) == Candidate(base, n);
      CandidateInjective(base, k, n);
    }
  }

  lemma {:induction false} ProbesSize(base: string, n: nat)
    ensures |Probes(base, n)| == n
  {
    if n > 0 {
      ProbesSize(base, n - 1);
      ProbesSnoc(base, n - 1);
      CandidateFresh(base, n - 1);
    }
  }

  /** The termination argument of the probe loop: the first free suffix is at
      most the number of slugs already taken, because the probes before it
      are pairwise distinct taken slugs. */
  lemma FirstFreeBound(base: string, taken: set<string>, n: nat)
    requires IsFirstFree(base, taken, n)
    ensures n <= |taken|
  {
    ProbesSize(base, n);
    assert Probes(base, n) <= taken;
    assert |Probes(base, n)| <= |taken| by {
      var p := Probes(base, n);
      assert taken == p + (taken - p);
    }
  }

  /** The `while ...exists()` loop of `Article.save` and `MagazineIssue.save`:
      probes `base`, `base-1`, `base-2`, ... and returns the first slug that no
      other record holds, together with its suffix (0 for `base` itself). */
  method FreeSlug(base: string, taken: set<string>) returns (slug: string, suffix: nat)
    ensures slug == Candidate(base, suffix)
    ensures IsFirstFree(base, taken, suffix)
    ensures suffix <= |taken|
  {
    slug := base;
    var i := 1;
    ghost var tried: set<string> := {};
    while slug in taken
      invariant 1 <= i
      invariant slug == Candidate(base, i - 1)
      invariant tried == Probes(base, i - 1)
      invariant tried <= taken
      invariant slug !in tried
      decreases |taken - tried|
    {
      assert taken - (tried + {slug}) < taken - tried;
      tried := tried + {slug};
      slug := base + "-" + Decimal(i);
      i := i + 1;
      assert Probes(base, i - 1) == Probes(base, i - 2) + {Candidate(base, i - 2)};
      if slug in tried {
        var k :| 0 <= k < i - 1 && Candidate(base, k) == slug;
        CandidateInjective(base, k, i - 1);
      }
    }
    suffix := i - 1;
    FirstFreeBound(base, taken, suffix);
  }

  /** `Model.objects.exclude(pk=self.pk)` read for its slugs: the slugs of the
      table's rows other than this record (all rows when it has no pk yet,
      since `pk=None` matches no row). */
  function OtherSlugs(table: map<nat, string>, pk: Option<nat>): (r: set<string>)
    ensures forall p :: p in table && Some(p) != pk ==> table[p] in r
    ensures forall s :: s in r ==> exists p :: p in table && Some(p) != pk && table[p] == s
  {
    set p | p in table && Some(p) != pk :: table[p]
  }

  /** A category. Its slug is `slugify(name)` with no collision handling. */
  class Category {
    var pk: Option<nat>
    var name: string
    var slug: string

    constructor (pk: Option<nat>, name: string, slug: string)
      ensures this.pk == pk && this.name == name && this.slug == slug
    {
      this.pk, this.name, this.slug := pk, name, slug;
    }

    /** `Category.save`: an empty slug becomes `slugify(name)`; a set slug is
        kept. The row is written only if no other category holds the slug
        (`unique=True`); otherwise the database refuses it. */
    method Save(slugify: string -> string, table: map<nat, string>) returns (ok: bool)
      modifies this`slug
      ensures old(slug) != "" ==> slug == old(slug)
      ensures old(slug) == "" ==> slug == slugify(name)
      ensures ok <==> slug !in OtherSlugs(table, pk)
    {
      if slug == "" {
        slug := slugify(name);
      }
      ok := slug !in OtherSlugs(table, pk);
    }
  }

  /** A magazine issue, with the columns `save` and `display_image` use. */
  class MagazineIssue {
    var pk: Option<nat>
    var title: string
    var slug: string
    var cover: Picture

    constructor (pk: Option<nat>, title: string, slug: string, cover: Picture)
      ensures this.pk == pk && this.title == title && this.slug == slug && this.cover == cover
    {
      this.pk, this.title, this.slug, this.cover := pk, title, slug, cover;
    }

    /** `MagazineIssue.save`: a set slug is kept; an empty one becomes the first
        of `base`, `base-1`, `base-2`, ... that no other issue holds, where
        `base` is `slugify(title)[:250]`. The row is written when its slug is
        unique, which a derived slug is when no other save runs between the
        probe and the write. */
    method Save(slugify: string -> string, table: map<nat, string>) returns (ok: bool)
      modifies this`slug
      ensures old(slug) != "" ==> slug == old(slug)
      ensures old(slug) == "" ==> ok && exists n: nat ::
        slug == Candidate(BaseSlug(slugify(title)), n) &&
        IsFirstFree(BaseSlug(slugify(title)), OtherSlugs(table, pk), n)
      ensures ok <==> slug !in OtherSlugs(table, pk)
    {
      if slug == "" {
        var base := BaseSlug(slugify(title));
        var derived, n := FreeSlug(base, OtherSlugs(table, pk));
        slug := derived;
        assert base == BaseSlug(slugify(title));
        assert slug == Candidate(BaseSlug(slugify(title)), n);
        assert IsFirstFree(BaseSlug(slugify(title)), OtherSlugs(table, pk), n);
      }
      ok := slug !in OtherSlugs(table, pk);
    }
  }

  /** A news article, with the columns `save` and `display_image` use. */
  class Article {
    var pk: Option<nat>
    var title: string
    var slug: string
    var picture: Picture

    constructor (pk: Option<nat>, title: string, slug: string, picture: Picture)
      ensures this.pk == pk && this.title == title && this.slug == slug && this.picture == picture
    {
      this.pk, this.title, this.slug, this.picture := pk, title, slug, picture;
    }

    /** `Article.save`: a set slug is kept; an empty one becomes the first of
        `base`, `base-1`, `base-2`, ... that no other article holds, where
        `base` is `slugify(title)[:250]`. */
    method Save(slugify: string -> string, table: map<nat, string>) returns (ok: bool)
      modifies this`slug
      ensures old(slug) != "" ==> slug == old(slug)
      ensures old(slug) == "" ==> ok && exists n: nat ::
        slug == Candidate(BaseSlug(slugify(title)), n) &&
        IsFirstFree(BaseSlug(slugify(title)), OtherSlugs(table, pk), n)
      ensures ok <==> slug !in OtherSlugs(table, pk)
    {
      if slug == "" {
        var base := BaseSlug(slugify(title));
        var derived, n := FreeSlug(base, OtherSlugs(table, pk));
        slug := derived;
        assert base == BaseSlug(slugify(title));
        assert slug == Candidate(BaseSlug(slugify(title)), n);
        assert IsFirstFree(BaseSlug(slugify(title)), OtherSlugs(table, pk), n);
      }
      ok := slug !in OtherSlugs(table, pk);
    }
  }
}
