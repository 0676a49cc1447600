/** The read-side views of the website application (`insights`,
    `knowledge_center`, `magazine`), the founders-list signup on `home` and
    the guard of `contact`. Query results are sequences of row values in the
    order the queryset returns them. */
module WebsiteViews {
  import opened Common
  import opened Text
  import opened Sorting
  import opened WebsiteModels

  // ---------------------------------------------------------------------
  // insights
  // ---------------------------------------------------------------------

  /** What the insights and home views read of an article: its primary key,
      title, the two ordering columns, the names of its categories (in the
      order `article.categories.all()` yields them; names need not be
      unique), its images and its publishing flags. */
  datatype ArticleRow = ArticleRow(
    id: nat,
    title: string,
    publishedDate: int,
    createdAt: int,
    categoryNames: seq<string>,
    picture: Picture,
    isPublished: bool,
    isFeatured: bool)

  predicate ArticlePublished(a: ArticleRow) { a.isPublished }

  /** `a` comes no later than `b` under `order_by("-published_date", "-created_at")`. */
  predicate NotOlder(a: ArticleRow, b: ArticleRow) {
    a.publishedDate > b.publishedDate || (a.publishedDate == b.publishedDate && a.createdAt >= b.createdAt)
  }

  /** The rows are in newest-first order. */
  ghost predicate NewestFirst(s: seq<ArticleRow>) {
    Pairwise(s, NotOlder)
  }

  /** The key an article without categories is grouped under. */
  const Uncategorized: string := "Uncategorized"

  /** The keys the grouping loop appends an article under, once per entry. */
  function ArticleKeys(a: ArticleRow): seq<string> {
    if a.categoryNames == [] then [Uncategorized] else a.categoryNames
  }

  function Repeat(a: ArticleRow, n: nat): (r: seq<ArticleRow>)
    ensures |r| == n
    ensures forall i :: 0 <= i < n ==> r[i] == a
  {
    if n == 0 then [] else Repeat(a, n - 1) + [a]
  }

  /** Reference definition of one group: each article of `arts`, in order,
      repeated once for every time `k` is among its keys. */
  function Entries(arts: seq<ArticleRow>, k: string): seq<ArticleRow>
    decreases |arts|
  {
    if arts == [] then []
    else
      var last := arts[|arts| - 1];
      Entries(arts[..|arts| - 1], k) + Repeat(last, multiset(ArticleKeys(last))[k])
  }

  /** Insertion into an ordered dict: a new key goes to the end. */
  function AddKey(keys: seq<string>, k: string): seq<string> {
    if k in keys then keys else keys + [k]
  }

  function AddKeys(keys: seq<string>, names: seq<string>): seq<string>
    decreases |names|
  {
    if names == [] then keys else AddKey(AddKeys(keys, names[..|names| - 1]), names[|names| - 1])
  }

  /** Reference definition of the dict's key order: keys in order of first use. */
  function KeyOrder(arts: seq<ArticleRow>): seq<string>
    decreases |arts|
  {
    if arts == [] then [] else AddKeys(KeyOrder(arts[..|arts| - 1]), ArticleKeys(arts[|arts| - 1]))
  }

  /** The group of key `k`, empty when the dict has no such key. */
  function Group(groups: map<string, seq<ArticleRow>>, k: string): seq<ArticleRow> {
    if k in groups then groups[k] else []
  }

  lemma AddKeyKeepsNoDuplicates(keys: seq<string>, k: string)
    requires NoDuplicates(keys)
    ensures NoDuplicates(AddKey(keys, k))
  {
    if k !in keys {
      var r := keys + [k];
      forall i, j | 0 <= i < j < |r| ensures r[i] != r[j] {
        if j == |keys| {
          assert r[i] == keys[i];
        } else {
          assert r[i] == keys[i] && r[j] == keys[j];
        }
      }
    }
  }

  /** `categories_map.setdefault(k, []).append(article)`, with the key order
      of the dict kept beside it. */
  method SetDefaultAppend(keys: seq<string>, groups: map<string, seq<ArticleRow>>, k: string, article: ArticleRow)
    returns (keys': seq<string>, groups': map<string, seq<ArticleRow>>)
    requires NoDuplicates(keys)
    requires forall x :: x in groups <==> x in keys
    requires forall x :: x in groups ==> groups[x] != []
    ensures keys' == AddKey(keys, k)
    ensures NoDuplicates(keys')
    ensures forall x :: x in groups' <==> x in keys'
    ensures forall x :: x in groups' ==> groups'[x] != []
    ensures forall x :: Group(groups', x) == Group(groups, x) + (if x == k then [article] else [])
  {
    AddKeyKeepsNoDuplicates(keys, k);
    if k in groups {
      groups' := groups[k := groups[k] + [article]];
      keys' := keys;
    } else {
      groups' := groups[k := [article]];
      keys' := keys + [k];
    }
  }

  lemma AddKeysSnoc(keys: seq<string>, names: seq<string>, k: string)
    ensures AddKeys(keys, names + [k]) == AddKey(AddKeys(keys, names), k)
  {
    assert (names + [k])[..|names|] == names;
  }

  /** One more `append` under `k` extends the group of `k` by one copy. */
  lemma GroupStep(base: seq<ArticleRow>, mid: seq<ArticleRow>, next: seq<ArticleRow>,
                  names: seq<string>, k: string, x: string, article: ArticleRow)
    requires mid == base + Repeat(article, multiset(names)[x])
    requires next == mid + (if x == k then [article] else [])
    ensures next == base + Repeat(article, multiset(names + [k])[x])
  {
    assert multiset(names + [k]) == multiset(names) + multiset{k};
    if x == k {
      var m := multiset(names)[x];
      assert Repeat(article, m + 1) == Repeat(article, m) + [article];
    }
  }

  /** The inner `for category in category_names` loop: files the article
      under each name, once per occurrence. */
  method FileUnderNames(keys: seq<string>, groups: map<string, seq<ArticleRow>>, names: seq<string>, article: ArticleRow)
    returns (keys': seq<string>, groups': map<string, seq<ArticleRow>>)
    requires NoDuplicates(keys)
    requires forall x :: x in groups <==> x in keys
    requires forall x :: x in groups ==> groups[x] != []
    ensures keys' == AddKeys(keys, names)
    ensures NoDuplicates(keys')
    ensures forall x :: x in groups' <==> x in keys'
    ensures forall x :: x in groups' ==> groups'[x] != []
    ensures forall x :: Group(groups', x) == Group(groups, x) + Repeat(article, multiset(names)[x])
  {
    keys', groups' := keys, groups;
    for j := 0 to |names|
      invariant keys' == AddKeys(keys, names[..j])
      invariant NoDuplicates(keys')
      invariant forall x :: x in groups' <==> x in keys'
      invariant forall x :: x in groups' ==> groups'[x] != []
      invariant forall x :: Group(groups', x) == Group(groups, x) + Repeat(article, multiset(names[..j])[x])
    {
      var prefix, k := names[..j], names[j];
      assert names[..j + 1] == prefix + [k];
      AddKeysSnoc(keys, prefix, k);
      var nextKeys, nextGroups := SetDefaultAppend(keys', groups', k, article);
      forall x ensures Group(nextGroups, x) == Group(groups, x) + Repeat(article, multiset(names[..j + 1])[x]) {
        GroupStep(Group(groups, x), Group(groups', x), Group(nextGroups, x), prefix, k, x, article);
      }
      keys', groups' := nextKeys, nextGroups;
    }
    assert names[..|names|] == names;
  }

  /** One iteration of the outer loop: files the article under each of its
      category names, or under "Uncategorized" when it has none. */
  method FileArticle(keys: seq<string>, groups: map<string, seq<ArticleRow>>, article: ArticleRow)
    returns (keys': seq<string>, groups': map<string, seq<ArticleRow>>)
    requires NoDuplicates(keys)
    requires forall x :: x in groups <==> x in keys
    requires forall x :: x in groups ==> groups[x] != []
    ensures keys' == AddKeys(keys, ArticleKeys(article))
    ensures NoDuplicates(keys')
    ensures forall x :: x in groups' <==> x in keys'
    ensures forall x :: x in groups' ==> groups'[x] != []
    ensures forall x :: Group(groups', x) == Group(groups, x) + Repeat(article, multiset(ArticleKeys(article))[x])
  {
    var names := article.categoryNames;
    if names != [] {
      keys', groups' := FileUnderNames(keys, groups, names, article);
    } else {
      AddKeysSnoc(keys, [], Uncategorized);
      assert [] + [Uncategorized] == [Uncategorized];
      keys', groups' := SetDefaultAppend(keys, groups, Uncategorized, article);
      forall x ensures Repeat(article, multiset([Uncategorized])[x]) == if x == Uncategorized then [article] else [] {
        assert Repeat(article, 1) == [article];
      }
    }
  }

  lemma KeyOrderSnoc(arts: seq<ArticleRow>, a: ArticleRow)
    ensures KeyOrder(arts + [a]) == AddKeys(KeyOrder(arts), ArticleKeys(a))
  {
    assert (arts + [a])[..|arts|] == arts;
  }

  lemma EntriesSnoc(arts: seq<ArticleRow>, a: ArticleRow)
    ensures forall k :: Entries(arts + [a], k) == Entries(arts, k) + Repeat(a, multiset(ArticleKeys(a))[k])
  {
    assert (arts + [a])[..|arts|] == arts;
  }

  /** The grouping loop of `insights`: builds `categories_map` in place,
      appending each article under each of its category names, or under
      "Uncategorized" when it has none. `keys` is the dict's insertion order. */
  method GroupByCategory(articles: seq<ArticleRow>) returns (keys: seq<string>, groups: map<string, seq<ArticleRow>>)
    ensures keys == KeyOrder(articles)
    ensures NoDuplicates(keys)
    ensures forall k :: k in groups <==> k in keys
    ensures forall k :: k in groups <==> Entries(articles, k) != []
    ensures forall k :: k in groups ==> groups[k] == Entries(articles, k)
  {
    keys, groups := [], map[];
    for i := 0 to |articles|
      invariant keys == KeyOrder(articles[..i])
      invariant NoDuplicates(keys)
      invariant forall k :: k in groups <==> k in keys
      invariant forall k :: k in groups ==> groups[k] != []
      invariant forall k :: Group(groups, k) == Entries(articles[..i], k)
    {
      ghost var before := articles[..i];
      assert articles[..i + 1] == before + [articles[i]];
      KeyOrderSnoc(before, articles[i]);
      EntriesSnoc(before, articles[i]);
      keys, groups := FileArticle(keys, groups, articles[i]);
    }
    assert articles[..|articles|] == articles;
    assert forall k :: k in groups ==> groups[k] == Group(groups, k);
  }

  lemma RepeatCount(a: ArticleRow, n: nat, b: ArticleRow)
    ensures multiset(Repeat(a, n))[b] == if a == b then n else 0
  {
    if n > 0 {
      RepeatCount(a, n - 1, b);
    }
  }

  /** How often an article occurs in a group: as often as the group's name is
      among its keys (articles of a queryset are distinct rows). */
  lemma {:induction false} EntriesCount(arts: seq<ArticleRow>, k: string, a: ArticleRow)
    requires NoDuplicates(arts)
    ensures multiset(Entries(arts, k))[a] == if a in arts then multiset(ArticleKeys(a))[k] else 0
    decreases |arts|
  {
    if arts != [] {
      var init, last := arts[..|arts| - 1], arts[|arts| - 1];
      assert NoDuplicates(init);
      EntriesCount(init, k, a);
      RepeatCount(last, multiset(ArticleKeys(last))[k], a);
      assert arts == init + [last];
      if a == last {
        assert a !in init;
      }
    }
  }

  /** An article with no categories appears exactly once, under
      "Uncategorized", and under no other key. */
  lemma UncategorizedOnce(arts: seq<ArticleRow>, a: ArticleRow, k: string)
    requires NoDuplicates(arts) && a in arts && a.categoryNames == []
    ensures multiset(Entries(arts, k))[a] == if k == Uncategorized then 1 else 0
  {
    EntriesCount(arts, k, a);
  }

  /** An article with categories appears under each of their names, as many
      times as that name occurs among them, and nowhere else. */
  lemma CategorizedOccurrences(arts: seq<ArticleRow>, a: ArticleRow, k: string)
    requires NoDuplicates(arts) && a in arts && a.categoryNames != []
    ensures multiset(Entries(arts, k))[a] == multiset(a.categoryNames)[k]
  {
    EntriesCount(arts, k, a);
  }

  lemma {:induction false} EntriesMembers(arts: seq<ArticleRow>, k: string)
    ensures forall x :: x in Entries(arts, k) ==> x in arts
    decreases |arts|
  {
    if arts != [] {
      var init, last := arts[..|arts| - 1], arts[|arts| - 1];
      EntriesMembers(init, k);
      assert arts == init + [last];
    }
  }

  /** A group keeps the newest-first order of the articles it is built from. */
  lemma {:induction false} EntriesNewestFirst(arts: seq<ArticleRow>, k: string)
    requires NewestFirst(arts)
    ensures NewestFirst(Entries(arts, k))
    decreases |arts|
  {
    if arts != [] {
      var init, last := arts[..|arts| - 1], arts[|arts| - 1];
      assert NewestFirst(init) by {
        forall i, j | 0 <= i < j < |init| ensures NotOlder(init[i], init[j]) {
          assert init[i] == arts[i] && init[j] == arts[j];
        }
      }
      EntriesNewestFirst(init, k);
      EntriesMembers(init, k);
      var e := Entries(init, k);
      var rep := Repeat(last, multiset(ArticleKeys(last))[k]);
      var r := e + rep;
      forall i, j | 0 <= i < j < |r| ensures NotOlder(r[i], r[j]) {
        if j < |e| {
          assert r[i] == e[i] && r[j] == e[j];
        } else if i < |e| {
          assert r[i] == e[i] && e[i] in init;
          var m :| 0 <= m < |init| && init[m] == r[i];
          assert arts[m] == r[i] && arts[|arts| - 1] == last;
          assert r[j] == last;
        } else {
          assert r[i] == last && r[j] == last;
        }
      }
    }
  }

  /** The `article.display_image_url = article.display_image` loop. */
  method ResolveDisplayImages(articles: seq<ArticleRow>, placeholderUrl: string) returns (urls: seq<string>)
    ensures |urls| == |articles|
    ensures forall i :: 0 <= i < |articles| ==> urls[i] == DisplayImage(articles[i].picture, placeholderUrl)
  {
    urls := [];
    for i := 0 to |articles|
      invariant |urls| == i
      invariant forall j :: 0 <= j < i ==> urls[j] == DisplayImage(articles[j].picture, placeholderUrl)
    {
      urls := urls + [DisplayImage(articles[i].picture, placeholderUrl)];
    }
  }

  /** The context of the insights page. `categoriesList` with
      `categoriesDict` is the `OrderedDict` of the view; `displayImageUrls[i]`
      is the image attached to the i-th published article. */
  datatype InsightsPage = InsightsPage(
    categoriesList: seq<string>,
    categoriesDict: map<string, seq<ArticleRow>>,
    popular: seq<ArticleRow>,
    displayImageUrls: seq<string>)

  /** The `insights` view over the article table (in its newest-first order):
      the published articles grouped by category name, the names sorted by
      their lower-cased form (stably, so names that fold alike keep the
      order in which they were first met), the five newest articles, and the
      display image of each article. */
  method Insights(table: seq<ArticleRow>, lower: string -> string, placeholderUrl: string) returns (page: InsightsPage)
    ensures var articles := Filter(table, ArticlePublished);
      && page.categoriesList == SortByKey(KeyOrder(articles), lower)
      && SortedBy(page.categoriesList, lower)
      && NoDuplicates(page.categoriesList)
      && (forall k :: k in page.categoriesList <==> k in page.categoriesDict)
      && (forall k :: k in page.categoriesDict <==> Entries(articles, k) != [])
      && (forall k :: k in page.categoriesDict ==> page.categoriesDict[k] == Entries(articles, k))
      && (forall k :: WithKey(page.categoriesList, lower, k) == WithKey(KeyOrder(articles), lower, k))
      && page.popular == Take(articles, 5)
      && |page.displayImageUrls| == |articles|
      && (forall i :: 0 <= i < |articles| ==> page.displayImageUrls[i] == DisplayImage(articles[i].picture, placeholderUrl))
  {
    var articles := Filter(table, ArticlePublished);
    var keys, groups := GroupByCategory(articles);
    var sorted := SortByKey(keys, lower);
    NoDuplicatesMultiset(keys);
    NoDuplicatesMultiset(sorted);
    forall k ensures k in sorted <==> k in keys {
      assert k in sorted <==> k in multiset(sorted);
      assert k in keys <==> k in multiset(keys);
    }
    var urls := ResolveDisplayImages(articles, placeholderUrl);
    page := InsightsPage(sorted, groups, Take(articles, 5), urls);
  }

  // ---------------------------------------------------------------------
  // knowledge_center
  // ---------------------------------------------------------------------

  datatype ResourceType = Highlight | CaseStudy | Webinar | Learning | OtherResource

  datatype CategoryRef = CategoryRef(id: nat, name: string)

  /** What the knowledge-center view reads of a resource. */
  datatype ResourceRow = ResourceRow(
    id: nat,
    title: string,
    description: string,
    resourceType: ResourceType,
    categories: seq<CategoryRef>,
    picture: Picture,
    link: string,
    isFeatured: bool,
    published: bool,
    createdAt: int)

  /** The `resource_data` dict built for each resource. */
  datatype ResourceCard = ResourceCard(
    title: string,
    publishedDate: int,
    description: string,
    link: string,
    displayImage: string,
    categories: seq<string>,
    categoryIds: seq<string>)

  /** The dict built for each entry of the popular list. */
  datatype PopularResource = PopularResource(title: string, publishedDate: int, link: string)

  predicate ResourcePublished(r: ResourceRow) { r.published }
  predicate Featured(r: ResourceRow) { r.isFeatured }
  predicate NotFeatured(r: ResourceRow) { !r.isFeatured }

  function CategoryName(c: CategoryRef): string { c.name }

  /** `str(cat.id)`. */
  function CategoryIdText(c: CategoryRef): string { Decimal(c.id) }

  /** The `resource_data` of one resource; `published_date` is its creation time. */
  function Card(r: ResourceRow, placeholderUrl: string): (c: ResourceCard)
    ensures c.title == r.title && c.publishedDate == r.createdAt && c.link == r.link
    ensures c.description == r.description
    ensures c.displayImage == DisplayImage(r.picture, placeholderUrl)
    ensures |c.categories| == |c.categoryIds| == |r.categories|
    ensures forall i :: 0 <= i < |r.categories| ==>
      c.categories[i] == r.categories[i].name && c.categoryIds[i] == Decimal(r.categories[i].id)
  {
    ResourceCard(r.title, r.createdAt, r.description, r.link, DisplayImage(r.picture, placeholderUrl),
      MapSeq(r.categories, CategoryName), MapSeq(r.categories, CategoryIdText))
  }

  /** The category ids a card carries as strings read back as the ids. */
  lemma CardCategoryIds(r: ResourceRow, placeholderUrl: string)
    ensures forall i :: 0 <= i < |r.categories| ==>
      ParseDecimal(Card(r, placeholderUrl).categoryIds[i]) == r.categories[i].id
  {
    forall i | 0 <= i < |r.categories| ensures ParseDecimal(Card(r, placeholderUrl).categoryIds[i]) == r.categories[i].id {
      DecimalRoundTrip(r.categories[i].id);
    }
  }

  function Popular(r: ResourceRow): PopularResource {
    PopularResource(r.title, r.createdAt, r.link)
  }

  /** The loop of `knowledge_center`: appends each resource's card to
      `highlights` when it is featured and to `resources` otherwise. */
  method SplitHighlights(qs: seq<ResourceRow>, placeholderUrl: string)
    returns (highlights: seq<ResourceCard>, resources: seq<ResourceCard>)
    ensures highlights == MapSeq(Filter(qs, Featured), (r: ResourceRow) => Card(r, placeholderUrl))
    ensures resources == MapSeq(Filter(qs, NotFeatured), (r: ResourceRow) => Card(r, placeholderUrl))
  {
    var card := (r: ResourceRow) => Card(r, placeholderUrl);
    highlights, resources := [], [];
    for i := 0 to |qs|
      invariant highlights == MapSeq(Filter(qs[..i], Featured), card)
      invariant resources == MapSeq(Filter(qs[..i], NotFeatured), card)
    {
      var r := qs[i];
      var data := card(r);
      MapPartitionPrefix(qs, i, Featured, NotFeatured, card, highlights, resources);
      if r.isFeatured {
        highlights := highlights + [data];
      } else {
        resources := resources + [data];
      }
    }
    assert qs[..|qs|] == qs;
  }

  /** The `knowledge_center` view over the resource table (newest first): the
      cards of the published resources, split into featured highlights and
      the rest, and the five newest published resources. */
  method KnowledgeCenter(table: seq<ResourceRow>, placeholderUrl: string)
    returns (highlights: seq<ResourceCard>, resources: seq<ResourceCard>, popular: seq<PopularResource>)
    ensures var qs := Filter(table, ResourcePublished);
      && highlights == MapSeq(Filter(qs, Featured), (r: ResourceRow) => Card(r, placeholderUrl))
      && resources == MapSeq(Filter(qs, NotFeatured), (r: ResourceRow) => Card(r, placeholderUrl))
      && popular == MapSeq(Take(qs, 5), Popular)
  {
    var qs := Filter(table, ResourcePublished);
    highlights, resources := SplitHighlights(qs, placeholderUrl);
    popular := MapSeq(Take(qs, 5), Popular);
  }

  /** Every published resource is shown exactly once, as a highlight when it
      is featured and as a regular resource otherwise; each list keeps the
      newest-first order of the published resources. */
  lemma KnowledgeCenterPartition(table: seq<ResourceRow>, placeholderUrl: string)
    ensures var qs := Filter(table, ResourcePublished);
      && multiset(MapSeq(Filter(qs, Featured), (r: ResourceRow) => Card(r, placeholderUrl)))
         + multiset(MapSeq(Filter(qs, NotFeatured), (r: ResourceRow) => Card(r, placeholderUrl)))
         == multiset(MapSeq(qs, (r: ResourceRow) => Card(r, placeholderUrl)))
      && IsSubsequence(Filter(qs, Featured), qs)
      && IsSubsequence(Filter(qs, NotFeatured), qs)
  {
    var qs := Filter(table, ResourcePublished);
    MapFilterSplit(qs, Featured, NotFeatured, (r: ResourceRow) => Card(r, placeholderUrl));
    FilterIsSubsequence(qs, Featured);
    FilterIsSubsequence(qs, NotFeatured);
  }

  // ---------------------------------------------------------------------
  // magazine
  // ---------------------------------------------------------------------

  /** What the magazine view reads of an issue: the slugs of its categories
      (category slugs are unique, so none occurs twice). */
  datatype IssueRow = IssueRow(
    id: nat,
    title: string,
    slug: string,
    categorySlugs: seq<string>,
    cover: Picture,
    isFeatured: bool,
    isPublished: bool)

  predicate IssuePublished(x: IssueRow) { x.isPublished }
  predicate IssueFeatured(x: IssueRow) { x.isFeatured }

  function IssueIds(s: seq<IssueRow>): set<nat> {
    set x | x in s :: x.id
  }

  predicate DifferentIssueIds(x: IssueRow, y: IssueRow) { x.id != y.id }

  datatype MagazinePage = MagazinePage(
    issues: seq<IssueRow>,
    featured: seq<IssueRow>,
    regular: seq<IssueRow>,
    searchQuery: string,
    selectedCategory: string)

  /** The narrowing of the issues by the stripped `q` and `category`
      parameters: published issues, then a case-insensitive title search
      when `query` is non-empty, then the category slug when `categorySlug`
      is non-empty. */
  function SearchIssues(table: seq<IssueRow>, query: string, categorySlug: string, lower: string -> string)
    : (issues: seq<IssueRow>)
    ensures IsSubsequence(issues, table)
    ensures forall x :: x in issues <==>
      && x in table && x.isPublished
      && (query != "" ==> IContains(x.title, query, lower))
      && (categorySlug != "" ==> categorySlug in x.categorySlugs)
  {
    var published := Filter(table, IssuePublished);
    var searched := if query != "" then Filter(published, (x: IssueRow) => IContains(x.title, query, lower)) else published;
    var issues := if categorySlug != "" then Filter(searched, (x: IssueRow) => categorySlug in x.categorySlugs) else searched;
    FilterIsSubsequence(table, IssuePublished);
    FilterIsSubsequence(published, (x: IssueRow) => IContains(x.title, query, lower));
    FilterIsSubsequence(searched, (x: IssueRow) => categorySlug in x.categorySlugs);
    SubsequenceReflexive(published);
    SubsequenceReflexive(searched);
    SubsequenceTransitive(searched, published, table);
    SubsequenceTransitive(issues, searched, table);
    FilterMembers(table, IssuePublished);
    FilterMembers(published, (x: IssueRow) => IContains(x.title, query, lower));
    FilterMembers(searched, (x: IssueRow) => categorySlug in x.categorySlugs);
    issues
  }

  /** The `magazine` view over the issue table, with the raw `q` and
      `category` parameters (`""` when absent): the issues the stripped
      parameters select, the first four featured ones, and the rest. */
  function Magazine(table: seq<IssueRow>, q: string, category: string, lower: string -> string): (page: MagazinePage)
    ensures page.searchQuery == Strip(q) && page.selectedCategory == Strip(category)
    ensures page.issues == SearchIssues(table, Strip(q), Strip(category), lower)
    ensures |page.featured| <= 4
    ensures page.featured == Take(Filter(page.issues, IssueFeatured), 4)
    ensures forall x :: x in page.featured ==> x in page.issues && x.isFeatured
    ensures forall x :: x in page.regular <==> x in page.issues && x.id !in IssueIds(page.featured)
    ensures IsSubsequence(page.regular, page.issues)
  {
    var issues := SearchIssues(table, Strip(q), Strip(category), lower);
    var featured := Take(Filter(issues, IssueFeatured), 4);
    var ids := IssueIds(featured);
    var regular := Filter(issues, (x: IssueRow) => x.id !in ids);
    FilterMembers(issues, IssueFeatured);
    FilterMembers(issues, (x: IssueRow) => x.id !in ids);
    FilterIsSubsequence(issues, (x: IssueRow) => x.id !in ids);
    assert forall x :: x in featured ==> x in Filter(issues, IssueFeatured);
    MagazinePage(issues, featured, regular, Strip(q), Strip(category))
  }

  /** With unique issue ids, the featured and the regular issues split the
      filtered issues: no issue is in both, every issue is in one. */
  lemma MagazinePartition(table: seq<IssueRow>, q: string, category: string, lower: string -> string)
    requires Pairwise(table, DifferentIssueIds)
    ensures var page := Magazine(table, q, category, lower);
      && (forall x :: x in page.featured ==> x !in page.regular)
      && (forall x :: x in page.issues <==> x in page.featured || x in page.regular)
  {
    var page := Magazine(table, q, category, lower);
    SubsequenceMembers(page.issues, table);
    forall x | x in page.issues && x !in page.regular ensures x in page.featured {
      assert x.id in IssueIds(page.featured);
      var y :| y in page.featured && y.id == x.id;
      SameIdSameIssue(table, x, y);
    }
  }

  /** In a table with unique ids, an id picks out one issue. */
  lemma SameIdSameIssue(table: seq<IssueRow>, x: IssueRow, y: IssueRow)
    requires Pairwise(table, DifferentIssueIds)
    requires x in table && y in table && x.id == y.id
    ensures x == y
  {
    var i :| 0 <= i < |table| && table[i] == x;
    var j :| 0 <= j < |table| && table[j] == y;
    assert i == j;
  }

  // ---------------------------------------------------------------------
  // home
  // ---------------------------------------------------------------------

  /** `FoundersList.objects.get_or_create(email=email)` on the list of emails:
      a new email is added at the end, a known one changes nothing. */
  function Joined(emails: seq<string>, email: string): (r: seq<string>)
    ensures email in r
    ensures email in emails ==> r == emails
    ensures email !in emails ==> r == emails + [email]
  {
    if email in emails then emails else emails + [email]
  }

  /** Signing up with the same email twice is the same as signing up once. */
  lemma JoinedIdempotent(emails: seq<string>, email: string)
    ensures Joined(Joined(emails, email), email) == Joined(emails, email)
  {
  }

  /** The founders list holds every email at most once (the `unique=True`
      column), and after a signup the email is on it exactly once. */
  lemma JoinedOnce(emails: seq<string>, email: string)
    requires NoDuplicates(emails)
    ensures NoDuplicates(Joined(emails, email))
    ensures multiset(Joined(emails, email))[email] == 1
  {
    NoDuplicatesMultiset(emails);
    var r := Joined(emails, email);
    if email !in emails {
      assert multiset(r) == multiset(emails) + multiset{email};
    }
    NoDuplicatesMultiset(r);
  }

  /** The founders-list table. */
  class FoundersList {
    var emails: seq<string>

    ghost predicate Valid()
      reads this
    {
      NoDuplicates(emails)
    }

    constructor ()
      ensures Valid() && emails == []
    {
      emails := [];
    }

    /** `get_or_create`: inserts the email unless a row already holds it. */
    method GetOrCreate(email: string) returns (created: bool)
      requires Valid()
      modifies this
      ensures Valid()
      ensures emails == Joined(old(emails), email)
      ensures created <==> email !in old(emails)
    {
      JoinedOnce(emails, email);
      created := email !in emails;
      emails := Joined(emails, email);
    }
  }

  /** Flash messages of the `messages` framework. */
  datatype Flash = NoFlash | SuccessMessage(text: string) | ErrorMessage(text: string)

  /** The founders-list part of `home`: a POST with a non-empty email joins
      the list and redirects; anything else (a GET, a missing or empty
      email) changes nothing and renders the page. */
  method Home(founders: FoundersList, isPost: bool, email: Option<string>) returns (response: Response, flash: Flash)
    requires founders.Valid()
    modifies founders
    ensures founders.Valid()
    ensures isPost && Truthy(email) ==> founders.emails == Joined(old(founders.emails), email.value)
    ensures !(isPost && Truthy(email)) ==> founders.emails == old(founders.emails)
    ensures response == if isPost && Truthy(email) then Redirect("home") else Render("website/home.html")
    ensures flash == if isPost && Truthy(email) then SuccessMessage("Thanks for joining the Call Soso founders list.") else NoFlash
  {
    if isPost && Truthy(email) {
      var _ := founders.GetOrCreate(email.value);
      return Redirect("home"), SuccessMessage("Thanks for joining the Call Soso founders list.");
    }
    return Render("website/home.html"), NoFlash;
  }

  /** `filter(published=True, is_featured=True)` on resources. */
  predicate PublishedFeatured(r: ResourceRow) { r.published && r.isFeatured }

  /** The two lists of the home page: the three newest published articles and
      the three newest published featured resources. */
  function HomeFeed(articles: seq<ArticleRow>, resources: seq<ResourceRow>)
    : (r: (seq<ArticleRow>, seq<ResourceRow>))
    ensures |r.0| <= 3 && |r.1| <= 3
    ensures r.0 == Take(Filter(articles, ArticlePublished), 3)
    ensures forall x :: x in r.0 ==> x in articles && x.isPublished
    ensures r.1 == Take(Filter(resources, PublishedFeatured), 3)
    ensures forall x :: x in r.1 ==> x in resources && x.published && x.isFeatured
  {
    var latest := Take(Filter(articles, ArticlePublished), 3);
    var featured := Take(Filter(resources, PublishedFeatured), 3);
    assert forall x :: x in latest ==> x in Filter(articles, ArticlePublished);
    assert forall x :: x in featured ==> x in Filter(resources, PublishedFeatured);
    (latest, featured)
  }

  /** With the article table newest first, the feed's articles are the
      newest published ones: no published article left out is newer than one
      the feed shows. */
  lemma HomeFeedNewest(articles: seq<ArticleRow>, resources: seq<ResourceRow>)
    requires NewestFirst(articles)
    ensures forall x, y ::
      (x in HomeFeed(articles, resources).0 && y in articles && y.isPublished && y !in HomeFeed(articles, resources).0)
      ==> NotOlder(x, y)
  {
    var published := Filter(articles, ArticlePublished);
    var shown := HomeFeed(articles, resources).0;
    FilterPairwise(articles, ArticlePublished, NotOlder);
    FilterMembers(articles, ArticlePublished);
    forall x, y | x in shown && y in articles && y.isPublished && y !in shown ensures NotOlder(x, y) {
      var i :| 0 <= i < |shown| && shown[i] == x;
      var j :| 0 <= j < |published| && published[j] == y;
      assert forall k :: 0 <= k < |shown| ==> shown[k] == published[k];
      assert |shown| <= j;
      assert published[i] == x;
    }
  }

  // ---------------------------------------------------------------------
  // contact
  // ---------------------------------------------------------------------

  /** The POSTed contact fields; `None` when a field is absent. */
  datatype ContactForm = ContactForm(
    name: Option<string>,
    email: Option<string>,
    organization: Option<string>,
    inquiryType: Option<string>,
    message: Option<string>)

  datatype ContactResult = ContactResult(mail: Option<Mail>, flash: Flash, response: Response)

  /** The message the contact form sends; absent fields print as "None". */
  function ContactMail(f: ContactForm, sender: string, contactAddress: string): Mail {
    Mail(
      "Contact Inquiry: " + Show(f.inquiryType) + " from " + Show(f.name),
      "From: " + Show(f.name) + "\nEmail: " + Show(f.email) + "\nOrganization: " + Show(f.organization)
        + "\n\nMessage:\n" + Show(f.message),
      sender,
      [contactAddress])
  }

  /** The `contact` view: a POST sends one mail to the contact address exactly
      when both email and message are non-empty, then redirects; a POST
      missing either sends nothing and re-renders with an error; a GET only
      renders. `sender` and `contactAddress` are the two settings. */
  function Contact(isPost: bool, f: ContactForm, sender: string, contactAddress: string): (r: ContactResult)
    ensures r.mail.Some? <==> isPost && Truthy(f.email) && Truthy(f.message)
    ensures r.mail.Some? ==>
      && r.mail.value.recipients == [contactAddress] && r.mail.value.sender == sender
      && r.mail.value == ContactMail(f, sender, contactAddress)
      && r.flash == SuccessMessage("Your message has been sent successfully.") && r.response == Redirect("contact")
    ensures isPost && r.mail.None? ==>
      r.flash == ErrorMessage("Please provide both your email and a message.") && r.response == Render("website/contact.html")
    ensures !isPost ==> r.flash == NoFlash && r.response == Render("website/contact.html")
  {
    if isPost then
      if Truthy(f.email) && Truthy(f.message) then
        ContactResult(Some(ContactMail(f, sender, contactAddress)), SuccessMessage("Your message has been sent successfully."), Redirect("contact"))
      else
        ContactResult(None, ErrorMessage("Please provide both your email and a message."), Render("website/contact.html"))
    else
      ContactResult(None, NoFlash, Render("website/contact.html"))
  }
}
