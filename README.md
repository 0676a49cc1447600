# Call Soso core, modelled in Dafny

Call Soso is a Django site with two applications.

- **website** is the editorial side. News articles are grouped by category on the insights page. Knowledge-center resources are split into highlights and the rest. Magazine issues can be searched by title and category. The home page signs visitors up to a founders list, and a contact form sends one mail.
- **directory** is a materials exchange. Users post surplus listings and demand listings. Anyone can suggest a match between a surplus and a demand. The suggestion is recorded, and both parties are meant to be notified; as written, the notice fails after the match is stored (see Findings). A user sees the matches that touch their own listings, and staff see all matches.

This project models the parts of that code that compute or change data, and proves what those parts guarantee.

- `website_models.dfy` covers the image fallback shared by the content models and the slug each `save` derives. The slug probe loop is a method, and the three models are classes whose `Save` updates the slug field.
- `website_views.dfy` covers the view logic:
  - the insights grouping loop, proved against a reference definition of each group, plus the stable case-insensitive sort of the group names;
  - the knowledge-center partition loop;
  - the magazine filter and the featured/regular split;
  - the founders-list `get_or_create`;
  - the contact-form guard.
- `directory_models.dfy` has the material choices shared by both listing kinds, the `__str__` labels and a `Store` class. `Store` holds the three tables, and its invariant is the database's constraints:
  - unique keys;
  - foreign keys that refer to existing rows;
  - no (surplus, demand) pair twice.

  Its methods insert rows, reject a duplicate pair, and carry out the CASCADE and SET_NULL rules on deletion.
- `directory_views.dfy` covers the directory views: the two listing searches, the create views (the owner is always the requester), `suggest_match` and `match_list`.
- `common.dfy`, `text.dfy` and `sorting.dfy` hold what the models share:
  - querysets as filtered sequences;
  - Python's `str(int)`, `str.strip()`, truthiness and f-string printing of `None`;
  - Django's `icontains`;
  - a stable sort by key.

Query results are sequences of row values in the order the queryset yields them. The directory tables and the content querysets are kept in their `Meta.ordering` (newest first), so a directory insert puts the new row in front. The founders list has no ordering, and `Joined` appends a new email at the end. Case folding for `icontains` and string keys is a function parameter `lower`. `slugify` is a parameter too. The URL that `static("images/placeholder.jpg")` resolves to is the parameter `placeholderUrl`.

## Model

| member | source | states |
|---|---|---|
| WebsiteModels.DisplayImage | website/models.py:65-71 | The uploaded image if one is set, else the external URL if it is non-empty, else the placeholder; the result is non-empty whenever the placeholder URL is |
| WebsiteModels.BaseSlug | website/models.py:50 | The base is the first 250 characters of the slugified title: the whole of it when it fits, else exactly its first 250 characters |
| WebsiteModels.CandidateInjective | website/models.py:54 | Two different suffix numbers never produce the same `base-n` slug |
| WebsiteModels.FirstFreeUnique | website/models.py:199-204 | There is only one first free suffix, so the derived slug is determined by the base and the slugs other rows hold |
| WebsiteModels.FirstFreeBound | website/models.py:53-55 | The first free suffix is at most the number of slugs other rows hold, so the probe loop ends |
| WebsiteModels.FreeSlug | website/models.py:50-56 | The probe loop returns `base` or `base-n` for the first n whose slug no other row holds, every earlier probe being taken |
| WebsiteModels.OtherSlugs | website/models.py:53 | The slugs of exactly the rows other than this record (all rows when the record has no primary key yet) |
| WebsiteModels.Category.Save | website/models.py:18-21 | An empty slug becomes `slugify(name)` and a set slug is kept; the write succeeds exactly when no other category holds the slug |
| WebsiteModels.MagazineIssue.Save | website/models.py:48-57 | A set slug is kept; an empty slug becomes the first free `base`, `base-1`, ... and the write then always succeeds |
| WebsiteModels.Article.Save | website/models.py:196-205 | The same slug derivation for articles |
| WebsiteViews.GroupByCategory | website/views.py:216-223 | The map has a key exactly for each name some article is filed under, and each value is the reference group: the articles in queryset order, each once per occurrence of the name among its category names, and uncategorised articles under "Uncategorized"; the keys are in first-seen order without duplicates |
| WebsiteViews.EntriesCount | website/views.py:217-223 | A published article occurs in a group as often as the group's name occurs among the keys it is filed under |
| WebsiteViews.UncategorizedOnce | website/views.py:222-223 | An article without categories appears once, under "Uncategorized", and in no other group |
| WebsiteViews.CategorizedOccurrences | website/views.py:219-221 | An article with categories appears in each of its categories' groups, as often as that name occurs among them, and in no other group |
| WebsiteViews.EntriesMembers | website/views.py:217-221 | Every grouped article is one of the published articles |
| WebsiteViews.EntriesNewestFirst | website/views.py:213 | Each group keeps the newest-first order of the article queryset |
| Sorting.SortByKey | website/views.py:226 | `sorted` by the lower-cased name: the names come out ordered by their lower-cased form, none is lost or added, and names that fold to the same key keep their first-seen relative order, as Python's `sorted` does |
| WebsiteViews.ResolveDisplayImages | website/views.py:233-234 | Each article's resolved image is its display image |
| WebsiteViews.Insights | website/views.py:203-242 | The sidebar list is the group names sorted by lower-cased form, stably and without duplicates. It names exactly the keys of the group map, and each key maps to its reference group. Popular is the five newest published articles. Every article gets its display image |
| WebsiteViews.Card | website/views.py:268-276 | A resource's card carries its title, creation time as date, description, link and display image, and its categories' names and decimal ids in order |
| WebsiteViews.CardCategoryIds | website/views.py:275 | Each category id a card carries as a string reads back as that category's id |
| WebsiteViews.SplitHighlights | website/views.py:263-281 | The loop's highlights are the cards of the featured resources and its other list the cards of the rest, each in queryset order |
| WebsiteViews.KnowledgeCenter | website/views.py:249-301 | The same split over the published resources, with popular being the title, date and link of the five newest published resources |
| WebsiteViews.KnowledgeCenterPartition | website/views.py:278-281 | Every published resource's card is in exactly one of the two lists, and each list keeps the queryset order |
| Text.Strip | website/views.py:316-317 | The stripped parameter is the slice of the raw one left after removing whitespace from both ends: everything cut off is whitespace, and what remains starts and ends with a non-whitespace character |
| Text.StripEmpty | website/views.py:316-317 | A stripped parameter is empty exactly when the raw one is all whitespace |
| Text.StripIdempotent | website/views.py:316-317 | Stripping a stripped parameter changes nothing |
| WebsiteViews.SearchIssues | website/views.py:320-328 | Exactly the published issues whose title contains the query, ignoring case, when the query is non-empty, and that have the category slug when that is non-empty, in table order |
| WebsiteViews.Magazine | website/views.py:315-350 | The stripped parameters select the issues. Featured is the first four featured issues among them. Regular is exactly the selected issues whose id is not a featured one's, in queryset order. The stripped parameters are echoed back |
| WebsiteViews.MagazinePartition | website/views.py:331-332 | With unique ids, no issue is both featured and regular, and every selected issue is one of the two |
| WebsiteViews.Joined | website/views.py:90 | After a signup the email is on the list; a known email changes nothing and a new one is appended |
| WebsiteViews.JoinedIdempotent | website/views.py:90 | Signing up twice with the same email is the same as signing up once |
| WebsiteViews.JoinedOnce | website/views.py:90 | The list keeps every email at most once, and after a signup the email is on it exactly once |
| WebsiteViews.FoundersList.GetOrCreate | website/views.py:90 | The table becomes the joined list, stays duplicate-free, and reports a creation exactly when the email was new |
| WebsiteViews.Home | website/views.py:86-101 | A POST with a non-empty email joins the list, flashes the thanks message and returns `redirect("home")`; anything else leaves the list alone and renders the page |
| WebsiteViews.HomeFeed | website/views.py:73-84 | The first three published articles in table order, and the first three published featured resources in table order |
| WebsiteViews.HomeFeedNewest | website/views.py:73-77 | With the article table newest first, no published article the feed leaves out is newer than one it shows |
| WebsiteViews.Contact | website/views.py:117-137 | A POST sends exactly one mail, to the contact address from the configured sender, exactly when both email and message are non-empty, then flashes success and returns `redirect('contact')`. A POST missing either sends nothing, flashes the error and re-renders. A GET only renders |
| DirectoryModels.ParseMaterial | directory/models.py:9-18 | A submitted value is accepted exactly when it is the stored value of one of the eight choices, and then as that choice |
| DirectoryModels.ParseMaterialValue | directory/models.py:9-18 | Every choice's stored value reads back as that choice, so both listing kinds share one set of distinct values |
| DirectoryModels.SurplusLabel | directory/models.py:43-44 | The company, an en dash between spaces, then the material value |
| DirectoryModels.OrganisationOr | directory/models.py:74 | The organisation when it is set and non-empty, else the fallback |
| DirectoryModels.DemandLabel | directory/models.py:73-74 | "<organisation> needs <material>", with "Anonymous" when the organisation is NULL or empty |
| DirectoryModels.MatchLabel | directory/models.py:93-94 | "<company> → <organisation>", with "Requester" when the organisation is NULL or empty |
| DirectoryModels.SurplusesWithout | directory/models.py:20-44 | Deleting a surplus keeps exactly the other surplus rows, in order |
| DirectoryModels.DemandsWithout | directory/models.py:50-74 | Deleting a demand keeps exactly the other demand rows, in order |
| DirectoryModels.MatchesWithoutSurplus | directory/models.py:81 | The cascade keeps exactly the matches on other surpluses, in order |
| DirectoryModels.MatchesWithoutDemand | directory/models.py:82 | The cascade keeps exactly the matches on other demands, in order |
| DirectoryModels.SurplusesNotOwnedBy | directory/models.py:20-24 | Deleting a user keeps exactly the surpluses of other users |
| DirectoryModels.DemandsNotOwnedBy | directory/models.py:53-57 | Deleting a user keeps exactly the demands of other users |
| DirectoryModels.Unsuggest | directory/models.py:83 | SET_NULL clears `suggested_by` when it is the deleted user and changes nothing else of the match |
| DirectoryModels.MatchesAfterUserDeleted | directory/models.py:81-83 | After a user is deleted, no match names them as suggester. Every surviving match is on kept listings and comes from an old match. Every old match on kept listings survives, with only `suggested_by` cleared |
| DirectoryModels.MatchesAfterUserDeletedOrder | directory/models.py:81-83 | The surviving matches keep their table order: they are a subsequence of the table with the deleted user cleared as suggester |
| DirectoryModels.MatchesAfterUserDeletedPairwise | directory/models.py:81-88 | The surviving matches still have unique ids and unique (surplus, demand) pairs |
| DirectoryModels.AtMostOneMatchPerPair | directory/models.py:88 | With unique pairs, a (surplus, demand) pair has at most one match |
| DirectoryModels.Store.CreateSurplus | directory/views.py:72-74 | Inserts the form's data as a new surplus row, owned by the given owner and with a fresh id, in front of the table, keeping every constraint |
| DirectoryModels.Store.CreateDemand | directory/views.py:121-123 | Inserts the form's data as a new demand row, owned by the given owner and with a fresh id, in front of the table, keeping every constraint |
| DirectoryModels.Store.CreateMatch | directory/models.py:88 | Refuses the insert, changing nothing, exactly when the pair already has a match; otherwise inserts a match on the pair with a fresh id and no notes |
| DirectoryModels.Store.DeleteSurplus | directory/models.py:81 | Removes the surplus and every match on it, keeping every constraint |
| DirectoryModels.Store.DeleteDemand | directory/models.py:82 | Removes the demand and every match on it, keeping every constraint |
| DirectoryModels.Store.DeleteUser | directory/models.py:20-24 | Removes the user, their listings and the matches on those listings, clears them as suggester of the other matches, and keeps every constraint |
| DirectoryViews.FindSurplus | directory/views.py:139 | Finds a surplus exactly when one has the id, and what it finds has that id |
| DirectoryViews.FindDemand | directory/views.py:140 | Finds a demand exactly when one has the id, and what it finds has that id |
| DirectoryViews.FindSurplusUnique | directory/views.py:139 | With unique ids, the lookup finds exactly the row with the id |
| DirectoryViews.FindDemandUnique | directory/views.py:140 | With unique ids, the lookup finds exactly the row with the id |
| DirectoryViews.SurplusList | directory/views.py:36-61 | Exactly the requester's surpluses, narrowed by each non-empty parameter in table order. The query must occur, ignoring case, in the company or the material value. The material must equal the value. The location must occur, ignoring case |
| DirectoryViews.NarrowSurpluses | directory/views.py:51-54 | Exactly the surpluses with the material value when that parameter is non-empty, and the location when that is non-empty, in table order |
| DirectoryViews.SurplusListUnfiltered | directory/views.py:40-54 | With every parameter empty the search imposes nothing beyond ownership: it is all of the requester's surpluses |
| DirectoryViews.DemandList | directory/views.py:85-110 | The same for demands, searching the organisation (a NULL one never matches) and the material |
| DirectoryViews.NarrowDemands | directory/views.py:100-103 | Exactly the demands with the material value when that parameter is non-empty, and the location when that is non-empty |
| DirectoryViews.ResolveDemandColumn | directory/views.py:97-98 | The lookup keywords `organisation` and `material_wanted` name columns of the demand table |
| DirectoryViews.DemandListWith | directory/views.py:95-99 | Without a query the result is the listing. With a query and a keyword that names no column, building the search fails |
| DirectoryViews.DemandListAsWritten | directory/views.py:95-99 | The search as written, naming `org`: without a query it is the listing |
| DirectoryViews.DemandListAsWrittenFails | directory/views.py:97 | As written, the view fails exactly when the query is non-empty, for every user and every table |
| DirectoryViews.DemandListCorrected | directory/views.py:97 | Naming `organisation` gives exactly the listing `DemandList` specifies |
| DirectoryViews.MatchList | directory/views.py:155-166 | The staff flag is the requester's account flag. Staff get every match. Anyone else gets exactly the matches whose surplus or demand they own, in table order |
| DirectoryViews.MatchListVisibility | directory/views.py:163-165 | In a valid store, a user sees a match exactly when its surplus or its demand is one of their listings |
| DirectoryViews.SurplusCreate | directory/views.py:64-78 | A valid POST inserts the form's listing owned by the requester, whatever user the POST names, takes the next surplus id and leaves the other tables and counters alone, and returns `redirect('surplus_list')`. Anything else changes nothing and renders the form |
| DirectoryViews.DemandCreate | directory/views.py:113-127 | The same for demand listings, returning `redirect('demand_list')` |
| DirectoryViews.DemandAttribute | directory/views.py:146 | Reading `organisation` from a demand yields its organisation |
| DirectoryViews.MatchNoticeWith | directory/views.py:144-150 | The notice exists exactly when the attribute it reads exists, and then goes from the sender to the surplus's contact address and the demand owner's email |
| DirectoryViews.MatchNoticeAsWritten | directory/views.py:146 | Reading `demand.org` always fails, so the notice is never built |
| DirectoryViews.MatchNotice | directory/views.py:144-150 | The corrected notice has the subject, the message naming the company and the organisation ("None" when NULL), and the two recipients |
| DirectoryViews.SuggestMatchAsWritten | directory/views.py:134-151 | As written: the not-found and duplicate-pair cases are as in the corrected view, but for a new pair the match is stored, the view ends in a server error other than the integrity error, and no mail is sent |
| DirectoryViews.SuggestMatch | directory/views.py:134-151 | A missing surplus or demand is a 404 and changes nothing. A pair that already has a match is a server error and adds nothing. Otherwise exactly one match is added, suggested by the requester, the notice goes to the surplus contact and the demand owner, and the view returns `redirect('match_list')`. The listings, the users and their id counters never change |

## Left out

- Rendering, templates, `login_required`, signup, login and logout are left out of the model. A view's result is the template it renders or the route name it hands to `redirect()`.
- Route resolution is left out. `Redirect(name)` records the bare name a view passes to `redirect()`, and the model does not resolve it. `website/urls.py` and `directory/urls.py` set `app_name`, and the settings refer to routes as `website:home` and `directory:directory_home`. A bare name such as `home` or `match_list` would then not reverse unless the root URL configuration, which is not part of this model, registers it. If it does not, each of these views raises `NoReverseMatch` after its side effect has happened.
- Mail delivery is left out. `send_mail` is modelled as the `Mail` value the view would hand over, and `fail_silently` has no effect in the model.
- Clocks are left out. `auto_now_add` timestamps and `timezone.now` defaults are the integer columns of the row values. The tables are kept in their order instead of sorting by timestamp.
- File storage is left out. An uploaded image is the URL storage serves it under, and `static()` is the `placeholderUrl` parameter.
- `slugify` and `lower` are parameters, so the model does not fix their Unicode behaviour. `icontains` folding in SQLite is ASCII-only, which is one instance of it.
- The `DecimalField` columns (`monthly_volume`, `quantity_needed`), `MagazineIssue` descriptions, video URLs and other columns no core operation reads are not in the row values.
- `WebsiteModels.Category.Save`, `WebsiteModels.MagazineIssue.Save`: a `SlugField` defaults to 50 characters. A derived issue slug of up to 250 characters plus suffix, or `slugify` of a 100-character category name, may not fit the column, so the promised write succeeds only on a backend that ignores length, as SQLite does. The model does not check column width.
- `WebsiteModels.MagazineIssue.Save`, `WebsiteModels.Article.Save`: the model handles one save at a time. The source probes with `exists()` and then writes without a lock, so two concurrent saves of the same title can derive the same slug, and the `unique=True` column then refuses one of them. The `ok` these methods promise for a derived slug holds only when no other save runs between the probe and the write.
- `WebsiteModels.Category.Save`, `WebsiteModels.MagazineIssue.Save`, `WebsiteModels.Article.Save`: the row write itself is a boolean result, and the model has no table of whole rows for these models.
- `WebsiteModels.DisplayImage`: never being empty is stated on condition that the placeholder URL is non-empty, since `static()` is not modelled.
- `DirectoryModels.Store.CreateSurplus`, `DirectoryModels.Store.CreateDemand`: the ModelForm excludes only `user`, so `approved` is a form field. The model stores whatever the form submits. The default `False` holds only when the box is left unticked.
- The form validation of `SurplusListingForm` and `DemandListingForm` is a parameter (`Option` of the cleaned data), apart from the material choices, which `ParseMaterial` models.
- Querysets are evaluated when the model computes them, not lazily. The magazine view's `issues` and `regular_issues` are therefore the lists they evaluate to.
- The insights view's per-article `display_image_url` attribute is the list `displayImageUrls`, indexed like the articles.
- The magazine view's `PopularArticle` sidebar and its category list are plain reads with no logic and are left out. So are the knowledge center's sidebar categories, the directory index view, `article_detail`, the admin, the URL configuration and `callsoso/settings.py`.
- `DirectoryViews.SuggestMatch`: it models the corrected notice. `suggest_match` runs outside a transaction (no `ATOMIC_REQUESTS`), so as written the match row it creates stays in the table when the view then fails; that path is `DirectoryViews.SuggestMatchAsWritten`.
- User accounts are created and authenticated outside the directory; the store takes its users as given.

## Findings

| source | as written | input that shows it | evidently intended | confidence | as-written member | corrected member |
|---|---|---|---|---|---|---|
| directory/views.py:97 | The search filter uses the lookup `org__icontains`, but `DemandListing` has no field `org`. Django raises `FieldError` when the filter is built | Any request to the demand list with a non-empty `q`, even for a user with no listings | `organisation__icontains`, the nullable organisation column | high, not executed | DirectoryViews.DemandListAsWrittenFails | DirectoryViews.DemandListCorrected |
| directory/views.py:146 | The notice message reads `demand.org`, which raises `AttributeError` after `Match.objects.create` has stored the match, so no mail is sent and the request fails | Any suggestion of an existing surplus and demand with no match yet | `demand.organisation` | high, not executed | DirectoryViews.MatchNoticeAsWritten | DirectoryViews.MatchNotice |
