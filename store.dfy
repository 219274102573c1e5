/**
  The announcement store and the request handler built on it: the GET, POST,
  PUT and DELETE branches of `handleRequest` for single announcements, the
  three listing views, and `handleRequest` itself as the composition of the
  router, the auth guard and those branches.

  The key-value namespace is a map from key to announcement. Each operation
  is specified by a function from the old map to an `Outcome` (the response
  and the new map); the `AnnouncementStore` class performs the same steps in
  place, with the early returns of the source, and is proved against it.
 */
module Store {
  import opened Text
  import opened Types
  import opened Auth
  import opened Pagination
  import opened Router

  /** The page size every caller of `getAnnouncements` passes. */
  const PageSize: nat := 10

  /** JavaScript truthiness of a body field. */
  predicate Truthy(f: Field) {
    match f
    case Absent => false
    case Str(s) => s != ""
    case Other(t) => t
  }

  /** `data.id && typeof data.id === 'string' && data.id.trim()`: the custom id, trimmed. */
  function CustomId(f: Field): (r: Option<string>)
    ensures r.Some? <==> f.Str? && Trim(f.s) != ""
    ensures r.Some? ==> r.value != "" && IsTrimmed(r.value) && Unpadded(f.s, r.value)
  {
    if f.Str? && Trim(f.s) != "" then
      TrimCutsPadding(f.s);
      Some(Trim(f.s))
    else None
  }

  /** `'announcement_' + Date.now()` */
  function GeneratedId(nowMs: nat): string {
    "announcement_" + Decimal(nowMs)
  }

  function JsonErr(status: nat, e: ErrorKind): Response {
    Response(status, JsonError(e))
  }

  /** What one request leaves behind: the response and the store after it. */
  datatype Outcome = Outcome(response: Response, entries: map<string, Announcement>)

  /** Every announcement is stored under its own id. */
  predicate KeyedById(entries: map<string, Announcement>) {
    forall k :: k in entries ==> entries[k].id == k
  }

  // ---------------------------------------------------------------------------
  // The four single-announcement operations, as functions of the old store

  /** POST `<base>/api/announcements` */
  function CreateOutcome(entries: map<string, Announcement>, payload: Payload, kv: Kv, nowMs: nat, nowIso: string): (r: Outcome)
    ensures r.response.status == 200 <==> r.response.body.JsonCreated?
    ensures r.response.status != 200 ==> r.entries == entries
  {
    if !kv.bound then Outcome(JsonErr(500, KvUnbound), entries)
    else match payload
      case Unparsable => Outcome(JsonErr(400, InvalidJson), entries)
      case JsonNull => Outcome(JsonErr(500, MalformedData), entries)
      case Record(idField, title, content) =>
        match CreateRejection(entries, idField, title, content, kv)
        case Some(refusal) => Outcome(refusal, entries)
        case None =>
          var id := CreateId(idField, nowMs);
          Outcome(Response(200, JsonCreated(id)),
                  entries[id := Announcement(id, Trim(title.s), Trim(content.s), nowIso, None)])
  }

  /** The id a create stores under: the trimmed custom id, or a generated one. */
  function CreateId(idField: Field, nowMs: nat): string {
    if CustomId(idField).Some? then CustomId(idField).value else GeneratedId(nowMs)
  }

  /** The checks a parsed create body goes through, in order: the first refusal, if any. */
  function CreateRejection(entries: map<string, Announcement>, idField: Field, title: Field, content: Field, kv: Kv): (r: Option<Response>)
    ensures r.Some? ==> r.value.status != 200 && r.value.body.JsonError?
    ensures r.None? <==> kv.writeOk && title.Str? && content.Str? && title.s != "" && content.s != ""
                         && (CustomId(idField).Some? ==> kv.readOk && CustomId(idField).value !in entries)
  {
    var custom := CustomId(idField);
    if !Truthy(title) || !Truthy(content) then Some(JsonErr(400, MissingTitleOrContent))
    else if custom.Some? && !kv.readOk then Some(JsonErr(500, ReadFailed))
    else if custom.Some? && custom.value in entries then Some(JsonErr(400, DuplicateId(custom.value)))
    else if !title.Str? || !content.Str? then Some(JsonErr(500, MalformedData))
    else if !kv.writeOk then Some(JsonErr(500, WriteFailed))
    else None
  }

  /** PUT `<base>/api/announcements/<id>` */
  function UpdateOutcome(entries: map<string, Announcement>, id: string, payload: Payload, kv: Kv, nowIso: string): (r: Outcome)
    ensures r.response.status == 200 <==> r.response.body == JsonSuccess
    ensures r.response.status != 200 ==> r.entries == entries
    ensures r.response.status == 200 ==> id in entries && r.entries.Keys == entries.Keys
  {
    if !kv.bound then Outcome(JsonErr(500, KvUnbound), entries)
    else if !kv.readOk then Outcome(JsonErr(500, ReadFailed), entries)
    else if id !in entries then Outcome(JsonErr(404, NotFound), entries)
    else match payload
      case Unparsable => Outcome(JsonErr(400, InvalidJson), entries)
      case JsonNull => Outcome(JsonErr(500, MalformedData), entries)
      case Record(idField, title, content) =>
        if !Truthy(title) || !Truthy(content) then Outcome(JsonErr(400, MissingTitleOrContent), entries)
        else if Truthy(idField) && idField != Str(id) then Outcome(JsonErr(400, IdMismatch), entries)
        else if !title.Str? || !content.Str? then Outcome(JsonErr(500, MalformedData), entries)
        else if !kv.writeOk then Outcome(JsonErr(500, WriteFailed), entries)
        else
          var updated := entries[id].(id := id, title := Trim(title.s), content := Trim(content.s), updatedAt := Some(nowIso));
          Outcome(Response(200, JsonSuccess), entries[id := updated])
  }

  /** DELETE `<base>/api/announcements/<id>` */
  function DeleteOutcome(entries: map<string, Announcement>, id: string, kv: Kv): (r: Outcome)
    ensures r.response.status == 200 ==> id !in r.entries
    ensures r.response.status != 200 ==> r.entries == entries
    ensures r.entries == entries || r.entries == entries - {id}
  {
    if !kv.bound then Outcome(JsonErr(500, KvUnbound), entries)
    else if !kv.readOk then Outcome(JsonErr(500, ReadFailed), entries)
    else if id !in entries then Outcome(Response(200, JsonAlreadyDeleted), entries)
    else if !kv.writeOk then Outcome(JsonErr(500, WriteFailed), entries)
    else Outcome(Response(200, JsonSuccess), entries - {id})
  }

  /** GET `<base>/api/announcements/<id>` */
  function GetResponse(entries: map<string, Announcement>, id: string, kv: Kv): (r: Response)
    ensures r.status == 200 <==> kv.bound && kv.readOk && id in entries
    ensures r.status == 200 ==> r.body == JsonAnnouncement(entries[id])
  {
    if !kv.bound then JsonErr(500, KvUnbound)
    else if !kv.readOk then JsonErr(500, ReadFailed)
    else if id !in entries then JsonErr(404, NotFound)
    else Response(200, JsonAnnouncement(entries[id]))
  }

  // ---------------------------------------------------------------------------
  // Listing

  /** The value each listed key fetches: None when the key has no value or its read failed. */
  function Fetched(entries: map<string, Announcement>, keys: seq<string>, failed: set<string>): (r: seq<Option<Announcement>>)
    ensures |r| == |keys|
    ensures forall i :: 0 <= i < |keys| ==> (r[i].Some? <==> keys[i] in entries && keys[i] !in failed)
    ensures forall i :: 0 <= i < |keys| && r[i].Some? ==> r[i].value == entries[keys[i]]
  {
    seq(|keys|, i requires 0 <= i < |keys| =>
      if keys[i] in entries && keys[i] !in failed then Some(entries[keys[i]]) else None)
  }

  /** The announcements stored under the readable keys among `keys`, in key order. */
  function Readable(entries: map<string, Announcement>, keys: seq<string>, failed: set<string>): seq<Announcement> {
    if keys == [] then []
    else
      var k := keys[|keys| - 1];
      Readable(entries, keys[..|keys| - 1], failed) + (if k in entries && k !in failed then [entries[k]] else [])
  }

  /** `getAnnouncements(env, page, 10)`, with `keys` the names `KV.list` returns in its order. */
  function ListingOf(entries: map<string, Announcement>, page: int, kv: Kv, keys: seq<string>, failed: set<string>): (l: Listing)
    ensures !kv.bound ==> l == FailedListing(KvUnbound)
    ensures kv.bound && !kv.listOk ==> l == FailedListing(ListFailed)
    ensures kv.bound && kv.listOk ==> l.error.None? && |l.items| <= PageSize && l.totalItems <= ListLimit
  {
    if !kv.bound then FailedListing(KvUnbound)
    else if !kv.listOk then FailedListing(ListFailed)
    else Paginate(Present(Fetched(entries, keys[..Min(|keys|, ListLimit)], failed)), page, PageSize)
  }

  /** The `page` query parameter: its value when it parsed to a positive integer, 1 otherwise. */
  function PageParam(page: Option<int>): (p: int)
    ensures p >= 1
    ensures page.Some? && page.value > 0 ==> p == page.value
    ensures !(page.Some? && page.value > 0) ==> p == 1
  {
    if page.Some? && page.value > 0 then page.value else 1
  }

  // ---------------------------------------------------------------------------
  // handleRequest

  /** What the handler takes from its surroundings in one request. */
  datatype Env = Env(
    uuid: string,        // crypto.randomUUID()
    nowMs: nat,          // Date.now()
    nowIso: string,      // new Date().toISOString()
    kv: Kv,              // how the store behaves
    keys: seq<string>,   // the key names KV.list returns, in its order
    failed: set<string>  // keys whose read fails while listing
  )

  /** `handleRequest`, after the URL has been parsed. */
  function Handle(entries: map<string, Announcement>, req: Request, cfg: Config, env: Env): Outcome {
    var route := Classify(req.verb, req.path, cfg);
    if !route.NeedsAuth() then Outcome(Unguarded(route, cfg), entries)
    else Guarded(entries, route, Authorize(req, cfg, env.uuid), req, env)
  }

  /** The answers given before any credential is looked at. */
  function Unguarded(route: Route, cfg: Config): Response
    requires !route.NeedsAuth()
  {
    match route
    case Logout => Response(302, Redirect(cfg.NormalizedBase(), ClearToken))
    case Forbidden => Response(403, ForbiddenText)
    case _ => Response(204, NoBody)
  }

  /** A route that needs authorisation: the guard's answer, or the route's work. */
  function Guarded(entries: map<string, Announcement>, route: Route, decision: Decision, req: Request, env: Env): Outcome
    requires route.NeedsAuth()
  {
    match decision
    case Halt(r) => Outcome(r, entries)
    case Allowed => Serve(entries, route, req, env)
  }

  /** The work of an authorised request on a route that needs authorisation. */
  function Serve(entries: map<string, Announcement>, route: Route, req: Request, env: Env): Outcome
    requires route.NeedsAuth()
  {
    match route
    case ListView =>
      var l := ListingOf(entries, PageParam(req.page), env.kv, env.keys, env.failed);
      if l.error.Some? then Outcome(Response(500, LoadFailedPage(l.error.value)), entries)
      else Outcome(Response(200, BoardPage(l, false)), entries)
    case AdminView =>
      Outcome(Response(200, BoardPage(ListingOf(entries, PageParam(req.page), env.kv, env.keys, env.failed), true)), entries)
    case ApiList =>
      if !env.kv.bound then Outcome(Response(500, JsonListing(FailedListing(KvUnbound))), entries)
      else
        var l := ListingOf(entries, PageParam(req.page), env.kv, env.keys, env.failed);
        if l.error.Some? then Outcome(JsonErr(500, l.error.value), entries)
        else Outcome(Response(200, JsonListing(l)), entries)
    case ApiGet(id) => Outcome(GetResponse(entries, id, env.kv), entries)
    case ApiCreate => CreateOutcome(entries, req.payload, env.kv, env.nowMs, env.nowIso)
    case ApiUpdate(id) => UpdateOutcome(entries, id, req.payload, env.kv, env.nowIso)
    case ApiDelete(id) => DeleteOutcome(entries, id, env.kv)
  }

  // ---------------------------------------------------------------------------
  // Properties of the store operations

  /**
    A create succeeds exactly when the store is usable, both fields are
    non-empty strings and no existing announcement has the custom id; it then
    stores the trimmed title and content under the trimmed custom id, or the
    generated one, and changes nothing else.
   */
  lemma CreateSucceeds(entries: map<string, Announcement>, idField: Field, title: Field, content: Field,
                       kv: Kv, nowMs: nat, nowIso: string)
    ensures var r := CreateOutcome(entries, Record(idField, title, content), kv, nowMs, nowIso);
            var custom := CustomId(idField);
            r.response.status == 200
            <==> kv.bound && kv.writeOk && title.Str? && content.Str? && title.s != "" && content.s != ""
                 && (custom.Some? ==> kv.readOk && custom.value !in entries)
    ensures var r := CreateOutcome(entries, Record(idField, title, content), kv, nowMs, nowIso);
            var id := if CustomId(idField).Some? then CustomId(idField).value else GeneratedId(nowMs);
            r.response.status == 200 ==>
              r.response.body.id == id
              && r.entries == entries[id := Announcement(id, Trim(title.s), Trim(content.s), nowIso, None)]
  {
    var rejection := CreateRejection(entries, idField, title, content, kv);
    if kv.bound && rejection.Some? {
      assert CreateOutcome(entries, Record(idField, title, content), kv, nowMs, nowIso) == Outcome(rejection.value, entries);
    }
  }

  /** An empty, missing or false title or content is refused with 400 and the store is untouched. */
  lemma CreateRejectsFalsy(entries: map<string, Announcement>, idField: Field, title: Field, content: Field,
                           kv: Kv, nowMs: nat, nowIso: string)
    requires kv.bound && (!Truthy(title) || !Truthy(content))
    ensures CreateOutcome(entries, Record(idField, title, content), kv, nowMs, nowIso)
            == Outcome(JsonErr(400, MissingTitleOrContent), entries)
  {
  }

  /** A custom id already in use is refused with 400 and the existing announcement is kept. */
  lemma DuplicateIdNotOverwritten(entries: map<string, Announcement>, idField: Field, title: Field, content: Field,
                                  kv: Kv, nowMs: nat, nowIso: string)
    requires kv.bound && kv.readOk && Truthy(title) && Truthy(content)
    requires idField.Str? && Trim(idField.s) != "" && Trim(idField.s) in entries
    ensures CreateOutcome(entries, Record(idField, title, content), kv, nowMs, nowIso)
            == Outcome(JsonErr(400, DuplicateId(Trim(idField.s))), entries)
  {
    assert CustomId(idField) == Some(Trim(idField.s));
  }

  /** The custom id is trimmed before use: padding it with whitespace names the same announcement. */
  lemma CustomIdTrimmed(w1: string, id: string, w2: string)
    requires AllWhitespace(w1) && AllWhitespace(w2) && IsTrimmed(id) && id != ""
    ensures CustomId(Str(w1 + id + w2)) == Some(id)
  {
    TrimPadded(w1, id, w2);
  }

  /**
    Truthiness is checked on the raw title, trimming happens afterwards: a
    title of whitespace only is accepted and stored as the empty string.
   */
  lemma WhitespaceTitleStoredEmpty(entries: map<string, Announcement>, w: string, content: string,
                                   kv: Kv, nowMs: nat, nowIso: string)
    requires w != "" && AllWhitespace(w) && content != ""
    requires kv.bound && kv.writeOk
    ensures var r := CreateOutcome(entries, Record(Absent, Str(w), Str(content)), kv, nowMs, nowIso);
            r.response.status == 200 && r.entries[GeneratedId(nowMs)].title == ""
  {
    TrimPadded(w, "", "");
    assert w + "" + "" == w;
    CreateSucceeds(entries, Absent, Str(w), Str(content), kv, nowMs, nowIso);
  }

  /**
    A generated id is not checked against the store: when one clock reading
    repeats, the second create replaces the first announcement.
   */
  lemma GeneratedIdUnchecked(entries: map<string, Announcement>, title: string, content: string,
                             kv: Kv, nowMs: nat, nowIso: string)
    requires GeneratedId(nowMs) in entries
    requires title != "" && content != "" && kv.bound && kv.writeOk
    ensures var r := CreateOutcome(entries, Record(Absent, Str(title), Str(content)), kv, nowMs, nowIso);
            r.response.status == 200 && |r.entries| == |entries|
            && r.entries[GeneratedId(nowMs)] == Announcement(GeneratedId(nowMs), Trim(title), Trim(content), nowIso, None)
  {
    CreateSucceeds(entries, Absent, Str(title), Str(content), kv, nowMs, nowIso);
    var r := CreateOutcome(entries, Record(Absent, Str(title), Str(content)), kv, nowMs, nowIso);
    assert r.entries.Keys == entries.Keys;
  }

  /** Different clock readings give different generated ids. */
  lemma GeneratedIdsDistinct(a: nat, b: nat)
    requires a != b
    ensures GeneratedId(a) != GeneratedId(b)
  {
    var prefix := "announcement_";
    if GeneratedId(a) == GeneratedId(b) {
      assert Decimal(a) == GeneratedId(a)[|prefix|..];
      assert Decimal(b) == GeneratedId(b)[|prefix|..];
      DecimalInjective(a, b);
    }
  }

  /** What a successful create stored is what a later GET of its id returns. */
  lemma CreateThenGet(entries: map<string, Announcement>, payload: Payload, kv: Kv, nowMs: nat, nowIso: string, kv2: Kv)
    requires CreateOutcome(entries, payload, kv, nowMs, nowIso).response.status == 200
    requires kv2.bound && kv2.readOk
    ensures var r := CreateOutcome(entries, payload, kv, nowMs, nowIso);
            var id := r.response.body.id;
            GetResponse(r.entries, id, kv2)
            == Response(200, JsonAnnouncement(Announcement(id, Trim(payload.title.s), Trim(payload.content.s), nowIso, None)))
  {
    CreateSucceeds(entries, payload.id, payload.title, payload.content, kv, nowMs, nowIso);
  }

  /** Updating an id that is not stored answers 404 before the body is looked at. */
  lemma UpdateMissingIs404(entries: map<string, Announcement>, id: string, payload: Payload, kv: Kv, nowIso: string)
    requires kv.bound && kv.readOk && id !in entries
    ensures UpdateOutcome(entries, id, payload, kv, nowIso) == Outcome(JsonErr(404, NotFound), entries)
  {
  }

  /** A truthy body id other than the path id is refused with 400. */
  lemma UpdateIdMismatch(entries: map<string, Announcement>, id: string, idField: Field, title: Field, content: Field,
                         kv: Kv, nowIso: string)
    requires kv.bound && kv.readOk && id in entries && Truthy(title) && Truthy(content)
    requires Truthy(idField) && idField != Str(id)
    ensures UpdateOutcome(entries, id, Record(idField, title, content), kv, nowIso)
            == Outcome(JsonErr(400, IdMismatch), entries)
  {
  }

  /**
    A successful update keeps every other announcement and the creation time,
    replaces title and content with their trimmed values and stamps the update
    time; a later GET returns the updated announcement.
   */
  lemma UpdateKeepsCreatedAt(entries: map<string, Announcement>, id: string, idField: Field, title: Field, content: Field,
                             kv: Kv, nowIso: string, kv2: Kv)
    requires UpdateOutcome(entries, id, Record(idField, title, content), kv, nowIso).response.status == 200
    requires kv2.bound && kv2.readOk
    ensures var r := UpdateOutcome(entries, id, Record(idField, title, content), kv, nowIso);
            title.Str? && content.Str?
            && r.entries[id] == Announcement(id, Trim(title.s), Trim(content.s), entries[id].createdAt, Some(nowIso))
            && (forall k :: k in entries && k != id ==> r.entries[k] == entries[k])
            && GetResponse(r.entries, id, kv2) == Response(200, JsonAnnouncement(r.entries[id]))
  {
    UpdateSucceeds(entries, id, idField, title, content, kv, nowIso);
  }

  /**
    An update succeeds exactly when the store is usable, the id is stored,
    both fields are non-empty strings and the body id is absent, falsy or the
    path id; it then replaces exactly the announcement under the path id.
   */
  lemma UpdateSucceeds(entries: map<string, Announcement>, id: string, idField: Field, title: Field, content: Field,
                       kv: Kv, nowIso: string)
    ensures UpdateOutcome(entries, id, Record(idField, title, content), kv, nowIso).response.status == 200
            <==> kv.bound && kv.readOk && kv.writeOk && id in entries
                 && title.Str? && content.Str? && title.s != "" && content.s != ""
                 && (!Truthy(idField) || idField == Str(id))
    ensures UpdateOutcome(entries, id, Record(idField, title, content), kv, nowIso).response.status == 200 ==>
            id in entries && title.Str? && content.Str?
            && UpdateOutcome(entries, id, Record(idField, title, content), kv, nowIso).entries
               == entries[id := entries[id].(id := id, title := Trim(title.s), content := Trim(content.s), updatedAt := Some(nowIso))]
  {
  }

  /** An empty, missing or false title or content of an update to a stored id is refused with 400 and the store is untouched. */
  lemma UpdateRejectsFalsy(entries: map<string, Announcement>, id: string, idField: Field, title: Field, content: Field,
                           kv: Kv, nowIso: string)
    requires kv.bound && kv.readOk && id in entries && (!Truthy(title) || !Truthy(content))
    ensures UpdateOutcome(entries, id, Record(idField, title, content), kv, nowIso)
            == Outcome(JsonErr(400, MissingTitleOrContent), entries)
  {
  }

  /** Deleting is idempotent: a second delete also answers 200 and leaves the store as the first left it. */
  lemma DeleteIdempotent(entries: map<string, Announcement>, id: string, kv: Kv)
    requires kv.bound && kv.readOk && kv.writeOk
    ensures var first := DeleteOutcome(entries, id, kv);
            var second := DeleteOutcome(first.entries, id, kv);
            first.response.status == 200 && second.response.status == 200
            && first.entries == entries - {id} && second.entries == first.entries
            && second.response.body == JsonAlreadyDeleted
  {
    if id !in entries {
      assert entries - {id} == entries;
    }
  }

  /** A deleted announcement is gone: a later GET answers 404. */
  lemma DeleteThenGet(entries: map<string, Announcement>, id: string, kv: Kv)
    requires kv.bound && kv.readOk && kv.writeOk
    ensures GetResponse(DeleteOutcome(entries, id, kv).entries, id, kv) == JsonErr(404, NotFound)
  {
  }

  /** Every write keeps each announcement stored under its own id. */
  lemma WritesKeepKeyedById(entries: map<string, Announcement>, id: string, payload: Payload, kv: Kv, nowMs: nat, nowIso: string)
    requires KeyedById(entries)
    ensures KeyedById(CreateOutcome(entries, payload, kv, nowMs, nowIso).entries)
    ensures KeyedById(UpdateOutcome(entries, id, payload, kv, nowIso).entries)
    ensures KeyedById(DeleteOutcome(entries, id, kv).entries)
  {
    CreateKeepsKeyedById(entries, payload, kv, nowMs, nowIso);
    UpdateKeepsKeyedById(entries, id, payload, kv, nowIso);
  }

  lemma CreateKeepsKeyedById(entries: map<string, Announcement>, payload: Payload, kv: Kv, nowMs: nat, nowIso: string)
    requires KeyedById(entries)
    ensures KeyedById(CreateOutcome(entries, payload, kv, nowMs, nowIso).entries)
  {
    if CreateOutcome(entries, payload, kv, nowMs, nowIso).response.status == 200 {
      CreateSucceeds(entries, payload.id, payload.title, payload.content, kv, nowMs, nowIso);
    }
  }

  lemma UpdateKeepsKeyedById(entries: map<string, Announcement>, id: string, payload: Payload, kv: Kv, nowIso: string)
    requires KeyedById(entries)
    ensures KeyedById(UpdateOutcome(entries, id, payload, kv, nowIso).entries)
  {
    if UpdateOutcome(entries, id, payload, kv, nowIso).response.status == 200 {
      UpdateSucceeds(entries, id, payload.id, payload.title, payload.content, kv, nowIso);
    }
  }

  // ---------------------------------------------------------------------------
  // Properties of the listing

  /** When every listed key holds an announcement and every read succeeds, each fetched value arrives, in key order. */
  lemma FetchedAllPresent(entries: map<string, Announcement>, keys: seq<string>, failed: set<string>)
    requires forall i :: 0 <= i < |keys| ==> keys[i] in entries && keys[i] !in failed
    ensures |Present(Fetched(entries, keys, failed))| == |keys|
    ensures forall i :: 0 <= i < |keys| ==> Present(Fetched(entries, keys, failed))[i] == entries[keys[i]]
  {
    PresentOfAllSome(Fetched(entries, keys, failed));
  }

  /**
    With at most 1000 keys, all stored and read without failure, the listing
    counts every one of them and shows exactly the announcements stored under
    those keys.
   */
  lemma FullListingCountsStore(entries: map<string, Announcement>, page: int, kv: Kv, keys: seq<string>, failed: set<string>)
    requires kv.bound && kv.listOk && |keys| <= ListLimit
    requires forall i :: 0 <= i < |keys| ==> keys[i] in entries && keys[i] !in failed
    ensures ListingOf(entries, page, kv, keys, failed).totalItems == |keys|
    ensures forall a :: a in Present(Fetched(entries, keys, failed))
                        <==> exists i :: 0 <= i < |keys| && entries[keys[i]] == a
  {
    assert keys[..Min(|keys|, ListLimit)] == keys;
    FetchedAllPresent(entries, keys, failed);
    var all := Present(Fetched(entries, keys, failed));
    forall a | a in all
      ensures exists i :: 0 <= i < |keys| && entries[keys[i]] == a
    {
      var j :| 0 <= j < |all| && all[j] == a;
      assert entries[keys[j]] == a;
    }
    forall a | exists i :: 0 <= i < |keys| && entries[keys[i]] == a
      ensures a in all
    {
      var i :| 0 <= i < |keys| && entries[keys[i]] == a;
      assert all[i] == a;
    }
  }

  /**
    Fetching the listed keys and dropping the nulls leaves exactly the
    announcements of the keys that are stored and read without failure, in
    key order.
   */
  lemma {:induction false} FetchedKeepsReadable(entries: map<string, Announcement>, keys: seq<string>, failed: set<string>)
    ensures Present(Fetched(entries, keys, failed)) == Readable(entries, keys, failed)
  {
    if keys != [] {
      var init := keys[..|keys| - 1];
      var f := Fetched(entries, keys, failed);
      assert f == Fetched(entries, init, failed) + [f[|keys| - 1]];
      PresentConcat(Fetched(entries, init, failed), [f[|keys| - 1]]);
      assert [f[|keys| - 1]][..0] == [];
      FetchedKeepsReadable(entries, init, failed);
    }
  }

  /**
    Whatever reads fail, the listing counts the readable keys among the first
    1000 listed and pages through their announcements in key order.
   */
  lemma ListingCountsReadable(entries: map<string, Announcement>, page: int, kv: Kv, keys: seq<string>, failed: set<string>)
    requires kv.bound && kv.listOk
    ensures var listed := Readable(entries, keys[..Min(|keys|, ListLimit)], failed);
            ListingOf(entries, page, kv, keys, failed) == Paginate(listed, page, PageSize)
            && ListingOf(entries, page, kv, keys, failed).totalItems == |listed|
  {
    FetchedKeepsReadable(entries, keys[..Min(|keys|, ListLimit)], failed);
  }

  /** Readable keys are counted one each, unreadable ones not at all. */
  lemma {:induction false} ReadableCount(entries: map<string, Announcement>, keys: seq<string>, failed: set<string>)
    ensures |Readable(entries, keys, failed)| == |set i | 0 <= i < |keys| && keys[i] in entries && keys[i] !in failed|
  {
    if keys != [] {
      var init := keys[..|keys| - 1];
      var n := |keys| - 1;
      ReadableCount(entries, init, failed);
      var before := set i | 0 <= i < |init| && init[i] in entries && init[i] !in failed;
      var after := set i | 0 <= i < |keys| && keys[i] in entries && keys[i] !in failed;
      if keys[n] in entries && keys[n] !in failed {
        assert after == before + {n};
      } else {
        assert after == before;
      }
    }
  }

  /** Keys past the first 1000 that `KV.list` returns are never shown. */
  lemma ListLimitCapsTotal(entries: map<string, Announcement>, page: int, kv: Kv, keys: seq<string>, failed: set<string>)
    requires kv.bound && kv.listOk
    ensures ListingOf(entries, page, kv, keys, failed)
            == ListingOf(entries, page, kv, keys[..Min(|keys|, ListLimit)], failed)
  {
    var cut := keys[..Min(|keys|, ListLimit)];
    assert cut[..Min(|cut|, ListLimit)] == cut;
  }

  // ---------------------------------------------------------------------------
  // Properties of the handler

  /** Outside the base path the answer is 403 whatever the credentials, and nothing changes. */
  lemma OutsideBaseIgnoresCredentials(entries: map<string, Announcement>, req: Request, cfg: Config, env: Env)
    requires Classify(req.verb, req.path, cfg) == Forbidden
    ensures Handle(entries, req, cfg, env) == Outcome(Response(403, ForbiddenText), entries)
  {
  }

  /** The bare root and any unmatched path inside the base answer 204 without a credential check. */
  lemma UnmatchedIsNoContent(entries: map<string, Announcement>, req: Request, cfg: Config, env: Env)
    requires Classify(req.verb, req.path, cfg) in {Root, NoRoute}
    ensures Handle(entries, req, cfg, env) == Outcome(Response(204, NoBody), entries)
  {
  }

  /** Logout needs no credentials: it always clears the cookie and redirects to the base path. */
  lemma LogoutNeedsNoCredentials(entries: map<string, Announcement>, req: Request, cfg: Config, env: Env)
    requires IsLogoutPath(req.path, cfg)
    ensures Handle(entries, req, cfg, env) == Outcome(Response(302, Redirect(cfg.NormalizedBase(), ClearToken)), entries)
  {
  }

  /** On a guarded route, the store changes only when the guard allowed a write that answered 200, and stays keyed by id. */
  lemma GuardedWrites(entries: map<string, Announcement>, route: Route, decision: Decision, req: Request, env: Env)
    requires route.NeedsAuth()
    ensures var r := Guarded(entries, route, decision, req, env);
            r.entries != entries ==> decision == Allowed && (route == ApiCreate || route.ApiUpdate? || route.ApiDelete?)
                                     && r.response.status == 200
    ensures KeyedById(entries) ==> KeyedById(Guarded(entries, route, decision, req, env).entries)
  {
    var id := if route.ApiUpdate? || route.ApiDelete? then route.id else "";
    if KeyedById(entries) {
      WritesKeepKeyedById(entries, id, req.payload, env.kv, env.nowMs, env.nowIso);
    }
  }

  /**
    The store changes only through an authorised create, update or delete
    that answered 200.
   */
  lemma WritesRequireAuthorization(entries: map<string, Announcement>, req: Request, cfg: Config, env: Env)
    requires Handle(entries, req, cfg, env).entries != entries
    ensures Authorize(req, cfg, env.uuid) == Allowed
    ensures var route := Classify(req.verb, req.path, cfg);
            route == ApiCreate || route.ApiUpdate? || route.ApiDelete?
    ensures Handle(entries, req, cfg, env).response.status == 200
  {
    var route := Classify(req.verb, req.path, cfg);
    if route.NeedsAuth() {
      GuardedWrites(entries, route, Authorize(req, cfg, env.uuid), req, env);
    }
  }

  /** Only POST, PUT and DELETE requests ever change the store. */
  lemma ReadsChangeNothing(entries: map<string, Announcement>, req: Request, cfg: Config, env: Env)
    requires req.verb != "POST" && req.verb != "PUT" && req.verb != "DELETE"
    ensures Handle(entries, req, cfg, env).entries == entries
  {
    WriteRoutesNeedWriteVerbs(req.verb, req.path, cfg);
    if Handle(entries, req, cfg, env).entries != entries {
      WritesRequireAuthorization(entries, req, cfg, env);
    }
  }

  /** Every request keeps each announcement stored under its own id. */
  lemma HandleKeepsKeyedById(entries: map<string, Announcement>, req: Request, cfg: Config, env: Env)
    requires KeyedById(entries)
    ensures KeyedById(Handle(entries, req, cfg, env).entries)
  {
    var route := Classify(req.verb, req.path, cfg);
    if route.NeedsAuth() {
      GuardedWrites(entries, route, Authorize(req, cfg, env.uuid), req, env);
    }
  }

  /**
    With the default base `/` the API token is never consulted: no request
    that reaches the guard lies under the API-token prefix `//api/`, so the
    Authorization header never changes the decision.
   */
  lemma DefaultBaseNeverConsultsApiToken(req: Request, cfg: Config, uuid: string, header: string)
    requires cfg.homeUrl == "" && Classify(req.verb, req.path, cfg).NeedsAuth()
    ensures !IsApiTokenPath(req.path, cfg)
    ensures Authorize(req, cfg, uuid) == Authorize(req.(authorization := header), cfg, uuid)
  {
    if StartsWith(req.path, "//api/") {
      DefaultBaseApiPrefixUnguarded(req.verb, req.path, cfg);
      assert false;
    }
    DefaultBaseApiTokenPrefix(req.path, cfg);
    DefaultBaseIgnoresApiToken(req, cfg, uuid, header);
  }

  /** With the listing unavailable, the admin view still answers 200 while the list view and the API list answer 500. */
  lemma ListingErrorStatus(entries: map<string, Announcement>, route: Route, req: Request, env: Env)
    requires !env.kv.bound || !env.kv.listOk
    ensures route == AdminView ==> Serve(entries, route, req, env).response.status == 200
    ensures route == ListView ==> Serve(entries, route, req, env).response.status == 500
    ensures route == ApiList ==> Serve(entries, route, req, env).response.status == 500
  {
  }

  /** The admin view answers 200 even when the listing failed; the list view and the API list answer 500. */
  lemma AdminViewHidesListingError(entries: map<string, Announcement>, req: Request, cfg: Config, env: Env)
    requires Authorize(req, cfg, env.uuid) == Allowed
    requires !env.kv.bound || !env.kv.listOk
    ensures Classify(req.verb, req.path, cfg) == AdminView ==> Handle(entries, req, cfg, env).response.status == 200
    ensures Classify(req.verb, req.path, cfg) == ListView ==> Handle(entries, req, cfg, env).response.status == 500
    ensures Classify(req.verb, req.path, cfg) == ApiList ==> Handle(entries, req, cfg, env).response.status == 500
  {
    ListingErrorStatus(entries, Classify(req.verb, req.path, cfg), req, env);
  }

  // ---------------------------------------------------------------------------
  // The store, updated in place

  class AnnouncementStore {
    var entries: map<string, Announcement>

    constructor ()
      ensures entries == map[]
    {
      entries := map[];
    }

    method Create(payload: Payload, kv: Kv, nowMs: nat, nowIso: string) returns (resp: Response)
      modifies this
      ensures Outcome(resp, entries) == CreateOutcome(old(entries), payload, kv, nowMs, nowIso)
    {
      if !kv.bound { return JsonErr(500, KvUnbound); }
      if payload.Unparsable? { return JsonErr(400, InvalidJson); }
      if payload.JsonNull? { return JsonErr(500, MalformedData); }
      var title, content := payload.title, payload.content;
      if !Truthy(title) || !Truthy(content) { return JsonErr(400, MissingTitleOrContent); }
      var id: string;
      var custom := CustomId(payload.id);
      if custom.Some? {
        id := custom.value;
        if !kv.readOk { return JsonErr(500, ReadFailed); }
        if id in entries { return JsonErr(400, DuplicateId(id)); }
      } else {
        id := GeneratedId(nowMs);
      }
      if !title.Str? || !content.Str? { return JsonErr(500, MalformedData); }
      if !kv.writeOk { return JsonErr(500, WriteFailed); }
      entries := entries[id := Announcement(id, Trim(title.s), Trim(content.s), nowIso, None)];
      resp := Response(200, JsonCreated(id));
    }

    method Update(id: string, payload: Payload, kv: Kv, nowIso: string) returns (resp: Response)
      modifies this
      ensures Outcome(resp, entries) == UpdateOutcome(old(entries), id, payload, kv, nowIso)
    {
      if !kv.bound { return JsonErr(500, KvUnbound); }
      if !kv.readOk { return JsonErr(500, ReadFailed); }
      if id !in entries { return JsonErr(404, NotFound); }
      var existing := entries[id];
      if payload.Unparsable? { return JsonErr(400, InvalidJson); }
      if payload.JsonNull? { return JsonErr(500, MalformedData); }
      var title, content := payload.title, payload.content;
      if !Truthy(title) || !Truthy(content) { return JsonErr(400, MissingTitleOrContent); }
      if Truthy(payload.id) && payload.id != Str(id) { return JsonErr(400, IdMismatch); }
      if !title.Str? || !content.Str? { return JsonErr(500, MalformedData); }
      if !kv.writeOk { return JsonErr(500, WriteFailed); }
      entries := entries[id := existing.(id := id, title := Trim(title.s), content := Trim(content.s), updatedAt := Some(nowIso))];
      resp := Response(200, JsonSuccess);
    }

    method Delete(id: string, kv: Kv) returns (resp: Response)
      modifies this
      ensures Outcome(resp, entries) == DeleteOutcome(old(entries), id, kv)
    {
      if !kv.bound { return JsonErr(500, KvUnbound); }
      if !kv.readOk { return JsonErr(500, ReadFailed); }
      if id !in entries { return Response(200, JsonAlreadyDeleted); }
      if !kv.writeOk { return JsonErr(500, WriteFailed); }
      entries := entries - {id};
      resp := Response(200, JsonSuccess);
    }

    method Get(id: string, kv: Kv) returns (resp: Response)
      ensures resp.status == 200 <==> kv.bound && kv.readOk && id in entries
      ensures resp == GetResponse(entries, id, kv)
    {
      if !kv.bound { return JsonErr(500, KvUnbound); }
      if !kv.readOk { return JsonErr(500, ReadFailed); }
      if id !in entries { return JsonErr(404, NotFound); }
      resp := Response(200, JsonAnnouncement(entries[id]));
    }

    /** `getAnnouncements`: fetch every listed key, gather the values that arrived, cut out one page. */
    method List(page: int, kv: Kv, keys: seq<string>, failed: set<string>) returns (l: Listing)
      ensures l == ListingOf(entries, page, kv, keys, failed)
    {
      if !kv.bound { return FailedListing(KvUnbound); }
      if !kv.listOk { return FailedListing(ListFailed); }
      var fetched := Fetched(entries, keys[..Min(|keys|, ListLimit)], failed);
      var items := Gather(fetched);
      l := Paginate(items, page, PageSize);
    }

    method HandleRequest(req: Request, cfg: Config, env: Env) returns (resp: Response)
      modifies this
      ensures Outcome(resp, entries) == Handle(old(entries), req, cfg, env)
    {
      var route := Classify(req.verb, req.path, cfg);
      if route.Logout? { return Response(302, Redirect(cfg.NormalizedBase(), ClearToken)); }
      if route.Root? || route.NoRoute? { return Response(204, NoBody); }
      if route.Forbidden? { return Response(403, ForbiddenText); }
      var decision := Authorize(req, cfg, env.uuid);
      if decision.Halt? { return decision.response; }
      var page := PageParam(req.page);
      match route {
        case ListView =>
          var l := List(page, env.kv, env.keys, env.failed);
          if l.error.Some? {
            resp := Response(500, LoadFailedPage(l.error.value));
          } else {
            resp := Response(200, BoardPage(l, false));
          }
        case AdminView =>
          var l := List(page, env.kv, env.keys, env.failed);
          resp := Response(200, BoardPage(l, true));
        case ApiList =>
          if !env.kv.bound { return Response(500, JsonListing(FailedListing(KvUnbound))); }
          var l := List(page, env.kv, env.keys, env.failed);
          if l.error.Some? {
            resp := JsonErr(500, l.error.value);
          } else {
            resp := Response(200, JsonListing(l));
          }
        case ApiGet(id) =>
          resp := Get(id, env.kv);
        case ApiCreate =>
          resp := Create(req.payload, env.kv, env.nowMs, env.nowIso);
        case ApiUpdate(id) =>
          resp := Update(id, req.payload, env.kv, env.nowIso);
        case ApiDelete(id) =>
          resp := Delete(id, env.kv);
      }
    }
  }
}
