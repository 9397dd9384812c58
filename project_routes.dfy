/**
 * The two pieces of arithmetic and bookkeeping in the project routes: the body of a
 * `PUT /projects/:id` request, cleaned in place before it is written, and the numbers of
 * the paginated project listing.
 */
module ProjectRoutes {
  import opened Wrappers
  import opened JsValues
  import opened ProjectSlug

  /** The keys a client may never set directly. */
  const Protected: set<string> := {"id", "createdAt", "createdBy"}

  /** `updateData.title.toLowerCase()` throws: the title is truthy but not a string. */
  predicate TitleThrows(body: map<string, Value>) {
    "title" in body && Truthy(body["title"]) && !body["title"].Str?
  }

  /** A truthy string title, which gives the body a freshly derived slug. */
  predicate HasSlugTitle(body: map<string, Value>) {
    "title" in body && body["title"].Str? && body["title"].s != ""
  }

  /**
   * The body the update writes, or `None` when the handler fails with a type error. Its
   * properties are the three lemmas below.
   */
  function Sanitised(body: map<string, Value>, now: int): (r: Option<map<string, Value>>)
    ensures r.None? <==> TitleThrows(body)
    ensures r.Some? ==> "updatedAt" in r.value && r.value["updatedAt"] == Date(now)
  {
    if TitleThrows(body) then None
    else
      var kept := body - Protected;
      var slugged := if HasSlugTitle(body) then kept["slug" := Str(Slug(body["title"].s))] else kept;
      Some(slugged["updatedAt" := Date(now)])
  }

  /** The protected keys are gone. */
  lemma SanitisedDropsProtected(body: map<string, Value>, now: int)
    requires !TitleThrows(body)
    ensures "id" !in Sanitised(body, now).value
    ensures "createdAt" !in Sanitised(body, now).value
    ensures "createdBy" !in Sanitised(body, now).value
  {
    var kept := body - Protected;
    assert "id" !in kept && "createdAt" !in kept && "createdBy" !in kept;
  }

  /** No key is added but `slug` and `updatedAt`. */
  lemma SanitisedAddsNoKey(body: map<string, Value>, now: int)
    requires !TitleThrows(body)
    ensures forall k :: k in Sanitised(body, now).value ==> k in body || k == "slug" || k == "updatedAt"
  {
    var kept := body - Protected;
    assert kept.Keys <= body.Keys;
  }

  /** Every other key is passed through as the client sent it. */
  lemma SanitisedKeepsOtherKeys(body: map<string, Value>, now: int)
    requires !TitleThrows(body)
    ensures forall k :: k in body && k !in Protected && k != "slug" && k != "updatedAt"
                        ==> k in Sanitised(body, now).value && Sanitised(body, now).value[k] == body[k]
  {
  }

  /** A truthy string title replaces the slug by its own; otherwise the client's slug, if any, is kept. */
  lemma SanitisedSlug(body: map<string, Value>, now: int)
    requires !TitleThrows(body)
    ensures var r := Sanitised(body, now).value;
      && (HasSlugTitle(body) ==> "slug" in r && r["slug"] == Str(Slug(body["title"].s)))
      && (!HasSlugTitle(body) ==> ("slug" in r <==> "slug" in body))
      && (!HasSlugTitle(body) && "slug" in body ==> r["slug"] == body["slug"])
  {
  }

  /** Sending back a sanitised body at the same time stores the same thing. */
  lemma SanitisedIdempotent(body: map<string, Value>, now: int)
    requires !TitleThrows(body)
    ensures Sanitised(body, now).Some?
    ensures Sanitised(Sanitised(body, now).value, now) == Sanitised(body, now)
  {
    var once := Sanitised(body, now).value;
    SanitisedDropsProtected(body, now);
    SanitisedKeepsTitle(body, now);
    assert !TitleThrows(once) && (HasSlugTitle(once) <==> HasSlugTitle(body));
    SanitisedSlug(body, now);
    AlreadySanitised(once, now);
  }

  /** The title is passed through untouched. */
  lemma SanitisedKeepsTitle(body: map<string, Value>, now: int)
    requires !TitleThrows(body)
    ensures "title" in Sanitised(body, now).value <==> "title" in body
    ensures "title" in body ==> Sanitised(body, now).value["title"] == body["title"]
  {
    var kept := body - Protected;
    assert "title" in kept <==> "title" in body;
  }

  /** A body that already has the shape of a sanitised one is left as it is. */
  lemma AlreadySanitised(body: map<string, Value>, now: int)
    requires !TitleThrows(body)
    requires "id" !in body && "createdAt" !in body && "createdBy" !in body
    requires "updatedAt" in body && body["updatedAt"] == Date(now)
    requires HasSlugTitle(body) ==> "slug" in body && body["slug"] == Str(Slug(body["title"].s))
    ensures Sanitised(body, now) == Some(body)
  {
    var kept := body - Protected;
    assert kept == body by {
      assert kept.Keys == body.Keys;
    }
    if HasSlugTitle(body) {
      var slug := Str(Slug(body["title"].s));
      assert body["slug" := slug] == body;
    }
    assert body["updatedAt" := Date(now)] == body;
  }

  /** A body without a title keeps whatever slug the client sent, so a slug can change without its title. */
  lemma UntitledBodyKeepsClientSlug(now: int)
    ensures var body := map["slug" := Str("chosen-by-client")];
      Sanitised(body, now) == Some(map["slug" := Str("chosen-by-client"), "updatedAt" := Date(now)])
  {
    var body := map["slug" := Str("chosen-by-client")];
    assert !HasSlugTitle(body);
    assert body - Protected == body;
  }

  /** The request body of an update, which the handler edits in place. */
  class UpdateBody {
    var fields: map<string, Value>

    constructor (fields: map<string, Value>)
      ensures this.fields == fields
    {
      this.fields := fields;
    }

    /**
     * Delete the protected keys, derive the slug from a truthy title and stamp `updatedAt`.
     * `ok` is false when deriving the slug throws; the deletions have happened by then.
     */
    method Sanitise(now: int) returns (ok: bool)
      modifies this
      ensures ok <==> !TitleThrows(old(fields))
      ensures ok ==> fields == Sanitised(old(fields), now).value
      ensures !ok ==> fields == old(fields) - Protected
    {
      fields := fields - {"id"};
      fields := fields - {"createdAt"};
      fields := fields - {"createdBy"};
      assert fields == old(fields) - Protected;
      if "title" in fields && Truthy(fields["title"]) {
        var title := fields["title"];
        if !title.Str? {
          return false;
        }
        fields := fields["slug" := Str(Slug(title.s))];
      }
      fields := fields["updatedAt" := Date(now)];
      return true;
    }
  }

  /** Rows skipped before the requested page. */
  function Offset(page: int, limit: int): (r: int)
    ensures 1 <= page && 0 <= limit ==> 0 <= r
    ensures r + limit == page * limit
  {
    (page - 1) * limit
  }

  /**
   * `Math.ceil(total / limit)`, or `None` for `limit` 0, where the quotient is `Infinity`
   * or `NaN` and is sent as JSON `null`.
   */
  function PageCount(total: nat, limit: int): (r: Option<nat>)
    requires 0 <= limit
    ensures r.None? <==> limit == 0
    ensures r.Some? ==> (r.value - 1) * limit < total <= r.value * limit
  {
    if limit == 0 then None
    else
      var pages := (total + limit - 1) / limit;
      CeilBounds(total, limit, pages);
      Some(pages)
  }

  lemma CeilBounds(total: nat, limit: int, pages: int)
    requires 0 < limit
    requires pages == (total + limit - 1) / limit
    ensures 0 <= pages
    ensures (pages - 1) * limit < total <= pages * limit
  {
    var q := total + limit - 1;
    assert limit * pages <= q < limit * pages + limit;
  }

  /**
   * With a positive limit, pages `1..pages` each start inside the result set and every page
   * after the last starts past its end.
   */
  lemma {:induction false} PagesCoverTotal(total: nat, limit: int, page: int)
    requires 0 < limit && 1 <= page
    ensures page <= PageCount(total, limit).value ==> Offset(page, limit) < total
    ensures PageCount(total, limit).value < page ==> total <= Offset(page, limit)
  {
    var pages := PageCount(total, limit).value;
    if page <= pages {
      MultiplyMonotone(page - 1, pages - 1, limit);
    } else {
      MultiplyMonotone(pages, page - 1, limit);
    }
  }

  lemma MultiplyMonotone(a: int, b: int, n: int)
    requires a <= b && 0 <= n
    ensures a * n <= b * n
  {
    assert b * n - a * n == (b - a) * n;
  }
}
