/** The pure computations of the plant service over values: the filtered
    plant listing, lookup by id, building and merging plant records, the
    cascade of a plant deletion, the newest-first comment listing and the
    filter vocabularies. */
module Catalogue {
  import opened Types
  import opened Seqs
  import opened Text

  /** The image path every newly created plant gets. */
  const DefaultStaticPlantImageUrl := "/images/planta-generica.png"

  function Digit(d: nat): char
    requires d < 10
  {
    ('0' as int + d) as char
  }

  /** `String(n)` for a non-negative integer: its decimal digits. */
  function DecimalString(n: nat): string
  {
    if n < 10 then [Digit(n)] else DecimalString(n / 10) + [Digit(n % 10)]
  }

  // ---------------------------------------------------------------- listing

  /** A search term takes part only when it is a non-empty string. */
  predicate SearchActive(term: Option<string>)
  {
    term.Some? && term.value != ""
  }

  /** A location, climate, season or uses filter takes part only when it is
      a non-empty string other than the sentinel "all". */
  predicate TagActive(v: Option<string>)
  {
    v.Some? && v.value != "" && v.value != "all"
  }

  /** `xs.some(u => u.toLowerCase().includes(term))`. */
  predicate AnyIncludes(xs: seq<string>, term: string)
  {
    exists u :: u in xs && Includes(Lower(u), term)
  }

  /** The plant mentions `term` (already lower-cased) in its name, one of its
      uses, its scientific name (when that is a non-empty string) or its
      description, ignoring letter case. */
  predicate SearchHit(term: string, p: Plant)
  {
    || Includes(Lower(p.name), term)
    || AnyIncludes(p.uses, term)
    || (p.scientificName.Some? && p.scientificName.value != ""
        && Includes(Lower(p.scientificName.value), term))
    || Includes(Lower(p.description), term)
  }

  function SearchFilter(term: string): Plant -> bool { (p: Plant) => SearchHit(term, p) }
  function LocationFilter(location: string): Plant -> bool { (p: Plant) => location in p.location }
  function ClimateFilter(climate: string): Plant -> bool { (p: Plant) => p.climate == climate }
  function SeasonFilter(season: string): Plant -> bool { (p: Plant) => p.season == season }
  function UsesFilter(use: string): Plant -> bool { (p: Plant) => use in p.uses }

  // One predicate per filter field: true when the field is inactive.
  predicate PassesSearch(f: FilterValues, p: Plant)
  {
    SearchActive(f.searchTerm) ==> SearchHit(Lower(f.searchTerm.value), p)
  }
  predicate PassesLocation(f: FilterValues, p: Plant)
  {
    TagActive(f.location) ==> f.location.value in p.location
  }
  predicate PassesClimate(f: FilterValues, p: Plant)
  {
    TagActive(f.climate) ==> p.climate == f.climate.value
  }
  predicate PassesSeason(f: FilterValues, p: Plant)
  {
    TagActive(f.season) ==> p.season == f.season.value
  }
  predicate PassesUses(f: FilterValues, p: Plant)
  {
    TagActive(f.uses) ==> f.uses.value in p.uses
  }

  /** The plant satisfies every active field of the filter descriptor; with
      no descriptor every plant does. */
  predicate Matches(filters: Option<FilterValues>, p: Plant)
  {
    match filters
    case None => true
    case Some(f) =>
      PassesSearch(f, p) && PassesLocation(f, p) && PassesClimate(f, p)
      && PassesSeason(f, p) && PassesUses(f, p)
  }

  function Matching(filters: Option<FilterValues>): Plant -> bool
  {
    (p: Plant) => Matches(filters, p)
  }

  // The five narrowing steps of `getPlants`, in the order it applies them.
  function BySearch(s: seq<Plant>, f: FilterValues): seq<Plant>
  {
    if SearchActive(f.searchTerm) then Filter(s, SearchFilter(Lower(f.searchTerm.value))) else s
  }
  function ByLocation(s: seq<Plant>, f: FilterValues): seq<Plant>
  {
    if TagActive(f.location) then Filter(s, LocationFilter(f.location.value)) else s
  }
  function ByClimate(s: seq<Plant>, f: FilterValues): seq<Plant>
  {
    if TagActive(f.climate) then Filter(s, ClimateFilter(f.climate.value)) else s
  }
  function BySeason(s: seq<Plant>, f: FilterValues): seq<Plant>
  {
    if TagActive(f.season) then Filter(s, SeasonFilter(f.season.value)) else s
  }
  function ByUses(s: seq<Plant>, f: FilterValues): seq<Plant>
  {
    if TagActive(f.uses) then Filter(s, UsesFilter(f.uses.value)) else s
  }

  /** `getPlants`: a copy of the plant list, narrowed by each active filter
      in turn. */
  function ListPlants(ps: seq<Plant>, filters: Option<FilterValues>): seq<Plant>
  {
    match filters
    case None => ps
    case Some(f) => ByUses(BySeason(ByClimate(ByLocation(BySearch(ps, f), f), f), f), f)
  }

  /** The plant passes the first `k` narrowing steps of `f`. */
  predicate PassesFirst(f: FilterValues, k: nat, p: Plant)
  {
    && (k >= 1 ==> PassesSearch(f, p))
    && (k >= 2 ==> PassesLocation(f, p))
    && (k >= 3 ==> PassesClimate(f, p))
    && (k >= 4 ==> PassesSeason(f, p))
    && (k >= 5 ==> PassesUses(f, p))
  }

  function UpTo(f: FilterValues, k: nat): Plant -> bool
  {
    (p: Plant) => PassesFirst(f, k, p)
  }

  /** The plant passes narrowing step `k` of `f` (1 = search, ..., 5 = uses). */
  predicate PassesStep(f: FilterValues, k: nat, p: Plant)
  {
    if k == 1 then PassesSearch(f, p)
    else if k == 2 then PassesLocation(f, p)
    else if k == 3 then PassesClimate(f, p)
    else if k == 4 then PassesSeason(f, p)
    else PassesUses(f, p)
  }

  function Step(f: FilterValues, k: nat): Plant -> bool
  {
    (p: Plant) => PassesStep(f, k, p)
  }

  /** The stepwise listing is one pass over the plants keeping exactly those
      that match every active filter: an order-preserving subsequence. */
  lemma ListPlantsExact(ps: seq<Plant>, filters: Option<FilterValues>)
    ensures ListPlants(ps, filters) == Filter(ps, Matching(filters))
    ensures IsSubsequence(ListPlants(ps, filters), ps)
    ensures forall p :: p in ListPlants(ps, filters) <==> p in ps && Matches(filters, p)
  {
    ListPlantsIsFilter(ps, filters);
    FilterIsSubsequence(ps, Matching(filters));
  }

  lemma ListPlantsIsFilter(ps: seq<Plant>, filters: Option<FilterValues>)
    ensures ListPlants(ps, filters) == Filter(ps, Matching(filters))
  {
    match filters
    case None =>
      FilterStep(ps, false, Matching(filters), Matching(filters));
    case Some(f) =>
      SearchStage(ps, f);
      LocationStage(ps, f);
      ClimateStage(ps, f);
      SeasonStage(ps, f);
      UsesStage(ps, f);
      FilterStep(ps, true, UpTo(f, 5), Matching(filters));
  }

  // Each narrowing step extends the accumulated filter by one field.
  lemma SearchStage(ps: seq<Plant>, f: FilterValues)
    ensures BySearch(ps, f) == Filter(ps, UpTo(f, 1))
  {
    FilterStep(ps, SearchActive(f.searchTerm),
      if SearchActive(f.searchTerm) then SearchFilter(Lower(f.searchTerm.value)) else Step(f, 1),
      UpTo(f, 1));
  }

  lemma LocationStage(ps: seq<Plant>, f: FilterValues)
    ensures ByLocation(Filter(ps, UpTo(f, 1)), f) == Filter(ps, UpTo(f, 2))
  {
    FilterStage(ps, Filter(ps, UpTo(f, 1)), UpTo(f, 1), TagActive(f.location),
      if TagActive(f.location) then LocationFilter(f.location.value) else Step(f, 2),
      Step(f, 2), UpTo(f, 2));
  }

  lemma ClimateStage(ps: seq<Plant>, f: FilterValues)
    ensures ByClimate(Filter(ps, UpTo(f, 2)), f) == Filter(ps, UpTo(f, 3))
  {
    FilterStage(ps, Filter(ps, UpTo(f, 2)), UpTo(f, 2), TagActive(f.climate),
      if TagActive(f.climate) then ClimateFilter(f.climate.value) else Step(f, 3),
      Step(f, 3), UpTo(f, 3));
  }

  lemma SeasonStage(ps: seq<Plant>, f: FilterValues)
    ensures BySeason(Filter(ps, UpTo(f, 3)), f) == Filter(ps, UpTo(f, 4))
  {
    FilterStage(ps, Filter(ps, UpTo(f, 3)), UpTo(f, 3), TagActive(f.season),
      if TagActive(f.season) then SeasonFilter(f.season.value) else Step(f, 4),
      Step(f, 4), UpTo(f, 4));
  }

  lemma UsesStage(ps: seq<Plant>, f: FilterValues)
    ensures ByUses(Filter(ps, UpTo(f, 4)), f) == Filter(ps, UpTo(f, 5))
  {
    FilterStage(ps, Filter(ps, UpTo(f, 4)), UpTo(f, 4), TagActive(f.uses),
      if TagActive(f.uses) then UsesFilter(f.uses.value) else Step(f, 5),
      Step(f, 5), UpTo(f, 5));
  }

  /** A descriptor whose location, climate, season and uses are all "all"
      (or empty) and whose search term is empty lists every plant. */
  lemma {:induction false} AllListsEverything(ps: seq<Plant>, f: FilterValues)
    requires !SearchActive(f.searchTerm)
    requires !TagActive(f.location) && !TagActive(f.climate)
    requires !TagActive(f.season) && !TagActive(f.uses)
    ensures ListPlants(ps, Some(f)) == ps
  {
  }

  // ----------------------------------------------------------------- lookup

  /** `findIndex` by id: the first index holding that id, or none. */
  function FindIndex(ps: seq<Plant>, id: string): (r: Option<nat>)
    ensures r.None? ==> forall i :: 0 <= i < |ps| ==> ps[i].id != id
    ensures r.Some? ==> r.value < |ps| && ps[r.value].id == id
    ensures r.Some? ==> forall j :: 0 <= j < r.value ==> ps[j].id != id
  {
    if ps == [] then None
    else if ps[0].id == id then Some(0)
    else match FindIndex(ps[1..], id)
      case None => None
      case Some(k) => Some(k + 1)
  }

  /** `find` by id: the first plant with that id, or none. */
  function FindPlant(ps: seq<Plant>, id: string): (r: Option<Plant>)
    ensures r.None? <==> forall p :: p in ps ==> p.id != id
    ensures r.Some? ==> r.value in ps && r.value.id == id
    ensures r.Some? ==> exists i :: 0 <= i < |ps| && ps[i] == r.value
                                 && forall j :: 0 <= j < i ==> ps[j].id != id
  {
    match FindIndex(ps, id)
    case None => None
    case Some(i) => Some(ps[i])
  }

  // ---------------------------------------------------------------- records

  /** The part of a plant record its creator supplies. */
  function DraftOf(p: Plant): PlantDraft
  {
    PlantDraft(p.name, p.scientificName, p.description, p.location,
               p.climate, p.season, p.uses)
  }

  /** `addPlant`'s record: the supplied fields, an id made from the clock,
      the default image and both timestamps equal to the clock. */
  function NewPlant(d: PlantDraft, now: nat): (p: Plant)
    ensures DraftOf(p) == d
    ensures p.id == DecimalString(now)
    ensures p.imageUrl == DefaultStaticPlantImageUrl
    ensures p.createdAt == now && p.updatedAt == now
  {
    Plant(DecimalString(now), d.name, d.scientificName, d.description, d.location,
          d.climate, d.season, d.uses, DefaultStaticPlantImageUrl, now, now)
  }

  /** A JavaScript value is truthy here when it is a non-empty string or an array. */
  predicate Truthy(v: Option<TagsInput>)
  {
    match v
    case None => false
    case Some(Scalar(s)) => s != ""
    case Some(Tags(_)) => true
  }

  /** The `uses`/`location` coercion exactly as written: only a truthy scalar
      is wrapped; any other value is copied into the update unchanged. */
  function ProcessedTagsAsWritten(v: Option<TagsInput>): (r: Option<TagsInput>)
    ensures Truthy(v) ==> r.Some? && r.value.Tags?
    ensures Truthy(v) && v.value.Scalar? ==> r == Some(Tags([v.value.tag]))
    ensures v.Some? && v.value.Tags? ==> r == v
    ensures !Truthy(v) ==> r == v
  {
    if Truthy(v) && v.value.Scalar? then Some(Tags([v.value.tag])) else v
  }

  /** As written, exactly one supplied value escapes the coercion: the empty
      string, which the record then holds as a string instead of a list. */
  lemma AsWrittenKeepsEmptyScalar(v: Option<TagsInput>)
    ensures (ProcessedTagsAsWritten(v).Some? && ProcessedTagsAsWritten(v).value.Scalar?)
            <==> v == Some(Scalar(""))
  {
  }

  /** The coercion as intended: any supplied scalar becomes a one-element
      list, a supplied list is kept, an absent field stays absent. */
  function NormalizeTags(v: Option<TagsInput>): (r: Option<seq<string>>)
    ensures r.Some? <==> v.Some?
    ensures v.Some? && v.value.Scalar? ==> r == Some([v.value.tag])
    ensures v.Some? && v.value.Tags? ==> r == Some(v.value.tags)
  {
    match v
    case None => None
    case Some(Scalar(s)) => Some([s])
    case Some(Tags(xs)) => Some(xs)
  }

  /** A supplied field wins over the current one. */
  function Override<T>(supplied: Option<T>, current: T): T
  {
    if supplied.Some? then supplied.value else current
  }

  /** The record after an update: supplied fields replace the current ones,
      `uses` and `location` normalised to lists, `updatedAt` refreshed, and
      `id`, `imageUrl` and `createdAt` kept. */
  function ApplyUpdate(p: Plant, u: PlantUpdate, now: Timestamp): (q: Plant)
    ensures q.id == p.id && q.imageUrl == p.imageUrl && q.createdAt == p.createdAt
    ensures q.updatedAt == now
    ensures u.name.None? ==> q.name == p.name
    ensures u.name.Some? ==> q.name == u.name.value
    ensures q.scientificName == if u.scientificName.Some? then u.scientificName else p.scientificName
    ensures u.description.None? ==> q.description == p.description
    ensures u.description.Some? ==> q.description == u.description.value
    ensures u.climate.None? ==> q.climate == p.climate
    ensures u.climate.Some? ==> q.climate == u.climate.value
    ensures u.season.None? ==> q.season == p.season
    ensures u.season.Some? ==> q.season == u.season.value
    ensures u.uses.None? ==> q.uses == p.uses
    ensures u.uses.Some? && u.uses.value.Scalar? ==> q.uses == [u.uses.value.tag]
    ensures u.uses.Some? && u.uses.value.Tags? ==> q.uses == u.uses.value.tags
    ensures u.location.None? ==> q.location == p.location
    ensures u.location.Some? && u.location.value.Scalar? ==> q.location == [u.location.value.tag]
    ensures u.location.Some? && u.location.value.Tags? ==> q.location == u.location.value.tags
  {
    p.(name := Override(u.name, p.name),
       scientificName := if u.scientificName.Some? then u.scientificName else p.scientificName,
       description := Override(u.description, p.description),
       location := Override(NormalizeTags(u.location), p.location),
       climate := Override(u.climate, p.climate),
       season := Override(u.season, p.season),
       uses := Override(NormalizeTags(u.uses), p.uses),
       updatedAt := now)
  }

  /** Applying the same update twice at the same instant changes nothing more. */
  lemma ApplyUpdateIdempotent(p: Plant, u: PlantUpdate, now: Timestamp)
    ensures ApplyUpdate(ApplyUpdate(p, u, now), u, now) == ApplyUpdate(p, u, now)
  {
  }

  // ---------------------------------------------------------------- delete

  function IdIsNot(id: string): Plant -> bool { (p: Plant) => p.id != id }
  function NotOnPlant(plantId: string): Comment -> bool { (c: Comment) => c.plantId != plantId }

  /** The plants left by `deletePlant(id)`: every plant with another id, in order. */
  function WithoutPlant(ps: seq<Plant>, id: string): (r: seq<Plant>)
    ensures forall p :: p in r <==> p in ps && p.id != id
    ensures IsSubsequence(r, ps)
    ensures (forall p :: p in ps ==> p.id != id) ==> r == ps
  {
    FilterIsSubsequence(ps, IdIsNot(id));
    if forall p :: p in ps ==> p.id != id then
      FilterKeepsAll(ps, IdIsNot(id));
      Filter(ps, IdIsNot(id))
    else
      Filter(ps, IdIsNot(id))
  }

  /** The comments left by `deletePlant(id)`: every comment on another plant, in order. */
  function WithoutCommentsOf(cs: seq<Comment>, plantId: string): (r: seq<Comment>)
    ensures forall c :: c in r <==> c in cs && c.plantId != plantId
    ensures IsSubsequence(r, cs)
    ensures (forall c :: c in cs ==> c.plantId != plantId) ==> r == cs
  {
    FilterIsSubsequence(cs, NotOnPlant(plantId));
    if forall c :: c in cs ==> c.plantId != plantId then
      FilterKeepsAll(cs, NotOnPlant(plantId));
      Filter(cs, NotOnPlant(plantId))
    else
      Filter(cs, NotOnPlant(plantId))
  }

  /** The delete keeps every copy of a plant with another id. */
  lemma WithoutPlantCount(ps: seq<Plant>, id: string, x: Plant)
    ensures multiset(WithoutPlant(ps, id))[x] == if x.id != id then multiset(ps)[x] else 0
  {
    FilterCount(ps, IdIsNot(id), x);
  }

  /** The cascade keeps every copy of a comment on another plant. */
  lemma WithoutCommentsOfCount(cs: seq<Comment>, plantId: string, x: Comment)
    ensures multiset(WithoutCommentsOf(cs, plantId))[x] == if x.plantId != plantId then multiset(cs)[x] else 0
  {
    FilterCount(cs, NotOnPlant(plantId), x);
  }

  /** After the delete the id is not found, and none of its comments is listed. */
  lemma DeletedPlantIsGone(ps: seq<Plant>, cs: seq<Comment>, id: string)
    ensures FindPlant(WithoutPlant(ps, id), id) == None
    ensures CommentsNewestFirst(WithoutCommentsOf(cs, id), id) == []
  {
    var r := CommentsNewestFirst(WithoutCommentsOf(cs, id), id);
    if r != [] {
      HeadIsMember(r);
      assert false;
    }
  }

  /** The cascade leaves the comment listing of every other plant as it was. */
  lemma DeleteKeepsOtherComments(cs: seq<Comment>, id: string, other: string)
    requires other != id
    ensures CommentsNewestFirst(WithoutCommentsOf(cs, id), other) == CommentsNewestFirst(cs, other)
  {
    FilterThen(cs, NotOnPlant(id), OnPlant(other), OnPlant(other));
  }

  // --------------------------------------------------------------- comments

  function OnPlant(plantId: string): Comment -> bool { (c: Comment) => c.plantId == plantId }
  function CreatedAtIs(t: Timestamp): Comment -> bool { (c: Comment) => c.createdAt == t }

  /** Ordered by `createdAt`, newest first. */
  predicate NewestFirst(cs: seq<Comment>)
  {
    forall i, j :: 0 <= i < j < |cs| ==> cs[i].createdAt >= cs[j].createdAt
  }

  /** No comment of `s` is newer than `t`. */
  predicate NoneNewerThan(t: Timestamp, s: seq<Comment>)
  {
    forall k :: 0 <= k < |s| ==> s[k].createdAt <= t
  }

  lemma NewestFirstCons(x: Comment, s: seq<Comment>)
    requires NewestFirst(s) && NoneNewerThan(x.createdAt, s)
    ensures NewestFirst([x] + s)
  {
    var r := [x] + s;
    forall i, j | 0 <= i < j < |r| ensures r[i].createdAt >= r[j].createdAt {
      if i > 0 { assert r[i] == s[i - 1] && r[j] == s[j - 1]; }
      else { assert r[j] == s[j - 1]; }
    }
  }

  lemma NoneNewerThanPermuted(t: Timestamp, r: seq<Comment>, s: seq<Comment>, c: Comment)
    requires multiset(r) == multiset(s) + multiset{c}
    requires NoneNewerThan(t, s) && c.createdAt <= t
    ensures NoneNewerThan(t, r)
  {
    forall k | 0 <= k < |r| ensures r[k].createdAt <= t {
      assert r[k] in multiset(r);
      if r[k] != c {
        assert r[k] in multiset(s);
        var m :| 0 <= m < |s| && s[m] == r[k];
      }
    }
  }

  /** Puts `c` before the first comment that is not newer than it. */
  function InsertNewestFirst(c: Comment, s: seq<Comment>): (r: seq<Comment>)
    requires NewestFirst(s)
    ensures NewestFirst(r)
    ensures multiset(r) == multiset(s) + multiset{c}
    decreases |s|
  {
    if s == [] || s[0].createdAt <= c.createdAt then
      NewestFirstCons(c, s);
      [c] + s
    else
      var rest := InsertNewestFirst(c, s[1..]);
      NoneNewerThanPermuted(s[0].createdAt, rest, s[1..], c);
      NewestFirstCons(s[0], rest);
      assert s == [s[0]] + s[1..];
      [s[0]] + rest
  }

  /** `sort((a, b) => b.createdAt - a.createdAt)`: a stable insertion sort. */
  function SortNewestFirst(cs: seq<Comment>): (r: seq<Comment>)
    ensures NewestFirst(r)
    ensures multiset(r) == multiset(cs)
  {
    if cs == [] then []
    else
      assert cs == [cs[0]] + cs[1..];
      InsertNewestFirst(cs[0], SortNewestFirst(cs[1..]))
  }

  lemma InsertNewestFirstUnfold(c: Comment, s: seq<Comment>)
    requires NewestFirst(s)
    ensures InsertNewestFirst(c, s) ==
      if s == [] || s[0].createdAt <= c.createdAt then [c] + s
      else [s[0]] + InsertNewestFirst(c, s[1..])
  {
  }

  lemma {:induction false} InsertNewestFirstAt(c: Comment, s: seq<Comment>, t: Timestamp)
    requires NewestFirst(s)
    ensures Filter(InsertNewestFirst(c, s), CreatedAtIs(t)) == Filter([c], CreatedAtIs(t)) + Filter(s, CreatedAtIs(t))
    decreases |s|
  {
    var at := CreatedAtIs(t);
    InsertNewestFirstUnfold(c, s);
    if s == [] || s[0].createdAt <= c.createdAt {
      FilterAppend([c], s, at);
    } else {
      InsertNewestFirstAt(c, s[1..], t);
      FilterAppend([s[0]], InsertNewestFirst(c, s[1..]), at);
      FilterCons(s, at);
      FilterSingleton(c, at);
      FilterSingleton(s[0], at);
      SwapWhenOneEmpty(Filter([s[0]], at), Filter([c], at), Filter(s[1..], at));
    }
  }

  /** The sort is stable: comments with the same timestamp keep their relative order. */
  lemma {:induction false} SortNewestFirstStable(cs: seq<Comment>, t: Timestamp)
    ensures Filter(SortNewestFirst(cs), CreatedAtIs(t)) == Filter(cs, CreatedAtIs(t))
  {
    if cs != [] {
      SortNewestFirstStable(cs[1..], t);
      SortNewestFirstUnfold(cs);
      InsertNewestFirstAt(cs[0], SortNewestFirst(cs[1..]), t);
      FilterCons(cs, CreatedAtIs(t));
    }
  }

  lemma SortNewestFirstUnfold(cs: seq<Comment>)
    requires cs != []
    ensures SortNewestFirst(cs) == InsertNewestFirst(cs[0], SortNewestFirst(cs[1..]))
  {
  }

  /** `getCommentsByPlantId`: that plant's comments, newest first; ties in
      timestamp keep their storage order. */
  function CommentsNewestFirst(cs: seq<Comment>, plantId: string): (r: seq<Comment>)
    ensures NewestFirst(r)
    ensures multiset(r) == multiset(Filter(cs, OnPlant(plantId)))
    ensures forall c :: c in r <==> c in cs && c.plantId == plantId
  {
    var r := SortNewestFirst(Filter(cs, OnPlant(plantId)));
    SameMultisetSameMembers(r, Filter(cs, OnPlant(plantId)));
    r
  }

  /** `addComment`'s record: an id of "c" followed by the clock, stamped with the clock. */
  function NewComment(plantId: string, userId: string, userName: string, text: string, now: nat): (c: Comment)
    ensures c.id == "c" + DecimalString(now) && c.createdAt == now
    ensures c.plantId == plantId && c.userId == userId && c.userName == userName && c.text == text
  {
    Comment("c" + DecimalString(now), plantId, userId, userName, text, now)
  }

  /** A comment newer than every comment already on its plant is listed first. */
  lemma NewestCommentListedFirst(cs: seq<Comment>, c: Comment)
    requires forall d :: d in cs && d.plantId == c.plantId ==> d.createdAt < c.createdAt
    ensures CommentsNewestFirst(cs + [c], c.plantId) != []
    ensures CommentsNewestFirst(cs + [c], c.plantId)[0] == c
  {
  }

  /** The two comments the service starts with, on plant "1", two hours and
      half an hour before the moment it is loaded. */
  function SeedComments(now: Timestamp): seq<Comment>
  {
    [ Comment("c1", "1", "user1", "Elena M.",
              "Muy \U{fa}til esta informaci\U{f3}n, gracias!", now - 1000 * 60 * 60 * 2),
      Comment("c2", "1", "admin1", "Admin Flores",
              "Recuerden consultar a un especialista antes de usar cualquier planta medicinal.",
              now - 1000 * 60 * 30) ]
  }

  // ------------------------------------------------------------- vocabulary

  function Differs(v: string): string -> bool { (x: string) => x != v }

  /** A dynamic list after `deleteDynamic*(v)`: every other element, in order. */
  function Without(xs: seq<string>, v: string): (r: seq<string>)
    ensures v !in r
    ensures forall x :: x in r <==> x in xs && x != v
    ensures IsSubsequence(r, xs)
    ensures v !in xs ==> r == xs
  {
    FilterIsSubsequence(xs, Differs(v));
    if v !in xs then
      FilterKeepsAll(xs, Differs(v));
      Filter(xs, Differs(v))
    else
      Filter(xs, Differs(v))
  }

  /** Deleting a value from a dynamic list keeps every copy of the other values. */
  lemma WithoutCount(xs: seq<string>, v: string, x: string)
    ensures multiset(Without(xs, v))[x] == if x != v then multiset(xs)[x] else 0
  {
    FilterCount(xs, Differs(v), x);
  }

  /** The three vocabularies that can grow at run time. */
  datatype Category = Locations | Climates | Uses

  /** `plants.flatMap(p => p.location)`. */
  function PlantLocations(ps: seq<Plant>): (r: seq<string>)
    ensures forall x :: x in r <==> exists p :: p in ps && x in p.location
  {
    if ps == [] then []
    else
      assert forall p :: p in ps <==> p == ps[0] || p in ps[1..];
      ps[0].location + PlantLocations(ps[1..])
  }

  /** `plants.map(p => p.climate)`. */
  function PlantClimates(ps: seq<Plant>): (r: seq<string>)
    ensures forall x :: x in r <==> exists p :: p in ps && x == p.climate
  {
    if ps == [] then []
    else
      assert forall p :: p in ps <==> p == ps[0] || p in ps[1..];
      [ps[0].climate] + PlantClimates(ps[1..])
  }

  /** `plants.flatMap(p => p.uses)`. */
  function PlantUses(ps: seq<Plant>): (r: seq<string>)
    ensures forall x :: x in r <==> exists p :: p in ps && x in p.uses
  {
    if ps == [] then []
    else
      assert forall p :: p in ps <==> p == ps[0] || p in ps[1..];
      ps[0].uses + PlantUses(ps[1..])
  }

  function PlantValues(c: Category, ps: seq<Plant>): seq<string>
  {
    match c
    case Locations => PlantLocations(ps)
    case Climates => PlantClimates(ps)
    case Uses => PlantUses(ps)
  }

  /** A filter vocabulary: the base list, the values the plants carry and the
      dynamic list merged into one ascending list without repeats. */
  function Vocabulary(base: seq<string>, fromPlants: seq<string>, dynamic: seq<string>): (r: seq<string>)
    ensures StrictlySorted(r) && NoDuplicates(r)
    ensures forall x :: x in r <==> x in base || x in fromPlants || x in dynamic
    ensures forall s :: StrictlySorted(s) && (forall x :: x in s <==> x in r) ==> s == r
  {
    var r := SortedUnique(base + fromPlants + dynamic);
    StrictlySortedNoDuplicates(r);
    OnlySortedArrangement(r);
    r
  }
}
