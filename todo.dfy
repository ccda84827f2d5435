/** The to-do service's data, the request and response shapes of its Lambda handler,
    and a functional specification of what the handler does with one request. */
module Todo {
  import opened StringOrder

  datatype Option<T> = None | Some(value: T)

  // ---------------------------------------------------------------------------
  // JavaScript truthiness of the optional values the handler tests with `if (x)`
  // or `x || default`: an absent value is falsy, so are "" and 0.

  predicate Truthy(s: Option<string>)
  {
    s.Some? && s.value != ""
  }

  predicate TruthyInt(n: Option<int>)
  {
    n.Some? && n.value != 0
  }

  // ---------------------------------------------------------------------------
  // The table: partition key `userId`, sort key `todoId`.

  datatype Key = Key(userId: string, todoId: string)

  /** The non-key attributes of a stored to-do; an absent attribute is `None`. */
  datatype Item = Item(
    description: Option<string>,
    status: Option<string>,
    priority: Option<int>,
    completed: Option<bool>,
    translations: Option<map<string, string>>)

  /** A stored to-do as the store hands it back: key attributes and the rest. */
  datatype Record = Record(key: Key, item: Item)

  type Table = map<Key, Item>

  /** What an update on a key that holds nothing starts from: no attributes. */
  const Blank := Item(None, None, None, None, None)

  function Existing(table: Table, key: Key): (item: Item)
    ensures key in table ==> item == table[key]
    ensures key !in table ==> item == Blank
  {
    if key in table then table[key] else Blank
  }

  /** The store refuses a key attribute that is missing or the empty string. */
  function KeyOf(userId: Option<string>, todoId: Option<string>): (k: Option<Key>)
    ensures k.Some? <==> Truthy(userId) && Truthy(todoId)
    ensures k.Some? ==> k.value.userId == userId.value && k.value.todoId == todoId.value
  {
    if Truthy(userId) && Truthy(todoId) then Some(Key(userId.value, todoId.value)) else None
  }

  // ---------------------------------------------------------------------------
  // Requests and responses.

  /** The parsed JSON body of a POST or PUT request (fields absent unless sent). */
  datatype Body = Body(
    userId: Option<string>,
    todoId: Option<string>,
    description: Option<string>,
    status: Option<string>,
    priority: Option<int>,
    completed: Option<bool>)

  /** The proxy event. `body` is `None` when the body text does not parse to a JSON object. */
  datatype Event = Event(
    httpMethod: string,
    resource: string,
    pathParameters: Option<map<string, string>>,
    queryStringParameters: Option<map<string, string>>,
    body: Option<Body>)

  /** `params[name]` of an optional parameter object that defaults to `{}`. */
  function Param(params: Option<map<string, string>>, name: string): (v: Option<string>)
    ensures v.Some? <==> params.Some? && name in params.value
    ensures v.Some? ==> v.value == params.value[name]
  {
    if params.Some? && name in params.value then Some(params.value[name]) else None
  }

  datatype TranslateRequest = TranslateRequest(text: string, sourceLanguageCode: string, targetLanguageCode: string)
  datatype TranslateResult = Translated(translatedText: string) | TranslateError(message: string)

  /** The translation service, as an uninterpreted function of the request. */
  type Translator = TranslateRequest -> TranslateResult

  /** The source language the handler always asks for: detect it. */
  const AutoDetect := "auto"

  /** A string's JavaScript `length`: its UTF-16 code units, two for each character
      outside the Basic Multilingual Plane. */
  function Utf16Length(s: string): (n: nat)
    ensures |s| <= n <= 2 * |s|
    ensures n == |s| <==> forall i :: 0 <= i < |s| ==> s[i] as int <= 0xFFFF
  {
    if s == [] then 0
    else (if s[0] as int > 0xFFFF then 2 else 1) + Utf16Length(s[1..])
  }

  /** The SDK checks a request's minimum lengths, in UTF-16 code units, before sending
      it: `Text` needs one, each language code two. */
  predicate Sendable(req: TranslateRequest)
  {
    Utf16Length(req.text) >= 1 && Utf16Length(req.sourceLanguageCode) >= 2 && Utf16Length(req.targetLanguageCode) >= 2
  }

  /** Why a request failed with 500. */
  datatype Fault =
    | MalformedBody              // JSON.parse threw, or the body was not an object
    | InvalidKey                 // the store refused a missing or empty key attribute
    | InvalidParameter           // the SDK refused the translation request's Text or target language
    | InvalidDocumentPath        // the item has no `translations` map to write into
    | TranslateFailed(message: string)

  datatype Payload =
    | Message(message: string)
    | ItemMessage(message: string, item: Record)
    | Items(items: seq<Record>)
    | Translation(translatedDescription: string, cached: bool)
    | ServerError(message: string, error: Fault)

  datatype Response = Response(statusCode: int, body: Payload)

  function InternalError(fault: Fault): (r: Response)
    ensures r.statusCode == 500 && r.body.ServerError?
    ensures r.body.message == "Internal server error" && r.body.error == fault
  {
    Response(500, ServerError("Internal server error", fault))
  }

  /** The response, the table after the request and the translation requests it made, in order. */
  datatype Outcome = Outcome(response: Response, table: Table, calls: seq<TranslateRequest>)

  /** The handler's catch-all: status 500 comes exactly with the error body, which says
      `Internal server error`, and the failed request changes nothing. */
  predicate FailsCleanly(table: Table, out: Outcome)
  {
    && (out.response.statusCode == 500 <==> out.response.body.ServerError?)
    && (out.response.statusCode == 500 ==> out.response.body.message == "Internal server error" && out.table == table)
  }

  // ---------------------------------------------------------------------------
  // Routing: exact match on (method, resource template).

  datatype Route = CreateRoute | ListRoute | UpdateRoute | TranslateRoute | Unsupported

  function RouteOf(httpMethod: string, resource: string): (r: Route)
    ensures r == CreateRoute <==> httpMethod == "POST" && resource == "/todos"
    ensures r == ListRoute <==> httpMethod == "GET" && resource == "/todos/{userId}"
    ensures r == UpdateRoute <==> httpMethod == "PUT" && resource == "/todos/{userId}/{todoId}"
    ensures r == TranslateRoute <==> httpMethod == "GET" && resource == "/todos/{userId}/{todoId}/translation"
  {
    if httpMethod == "POST" && resource == "/todos" then CreateRoute
    else if httpMethod == "GET" && resource == "/todos/{userId}" then ListRoute
    else if httpMethod == "PUT" && resource == "/todos/{userId}/{todoId}" then UpdateRoute
    else if httpMethod == "GET" && resource == "/todos/{userId}/{todoId}/translation" then TranslateRoute
    else Unsupported
  }

  // ---------------------------------------------------------------------------
  // Create

  /** The item a create request stores: defaults for falsy status and priority,
      not completed, an empty translation cache. */
  function NewItem(b: Body): (item: Item)
    ensures item.description == b.description
    ensures Truthy(item.status) && TruthyInt(item.priority)
    ensures Truthy(b.status) ==> item.status == b.status
    ensures !Truthy(b.status) ==> item.status == Some("pending")
    ensures TruthyInt(b.priority) ==> item.priority == b.priority
    ensures !TruthyInt(b.priority) ==> item.priority == Some(1)
    ensures item.completed == Some(false)
    ensures item.translations == Some(map[])
  {
    Item(
      b.description,
      if Truthy(b.status) then b.status else Some("pending"),
      if TruthyInt(b.priority) then b.priority else Some(1),
      Some(false),
      Some(map[]))
  }

  function CreateSpec(table: Table, body: Option<Body>): (out: Outcome)
    ensures FailsCleanly(table, out)
    ensures out.calls == []
    ensures out.response.statusCode == 201 <==> body.Some? && KeyOf(body.value.userId, body.value.todoId).Some?
    ensures out.response.statusCode != 201 ==> out.table == table && out.response.statusCode == 500
    ensures out.response.statusCode == 201 ==>
      var k := KeyOf(body.value.userId, body.value.todoId).value;
      && out.table.Keys == table.Keys + {k}
      && out.table[k] == NewItem(body.value)
      && (forall k' :: k' in table && k' != k ==> out.table[k'] == table[k'])
      && out.response.body == ItemMessage("Todo item created", Record(k, out.table[k]))
  {
    if body.None? then Outcome(InternalError(MalformedBody), table, [])
    else match KeyOf(body.value.userId, body.value.todoId)
      case None => Outcome(InternalError(InvalidKey), table, [])
      case Some(k) =>
        var item := NewItem(body.value);
        Outcome(Response(201, ItemMessage("Todo item created", Record(k, item))), table[k := item], [])
  }

  // ---------------------------------------------------------------------------
  // List

  predicate SortedByTodoId(rs: seq<Record>)
  {
    forall i, j :: 0 <= i < j < |rs| ==> Less(rs[i].key.todoId, rs[j].key.todoId)
  }

  /** The sort keys present under one partition key. */
  function IdsOf(table: Table, userId: string): (ids: set<string>)
    ensures forall id :: id in ids <==> Key(userId, id) in table
  {
    var ids := set k | k in table && k.userId == userId :: k.todoId;
    assert forall id :: Key(userId, id) in table ==> Key(userId, id).todoId in ids;
    ids
  }

  /** The records of `table` under `userId` with the given sort keys, in that order. */
  function RecordsOf(table: Table, userId: string, ids: seq<string>): (rs: seq<Record>)
    requires forall id :: id in ids ==> Key(userId, id) in table
    ensures |rs| == |ids|
    ensures forall i :: 0 <= i < |ids| ==> rs[i] == Record(Key(userId, ids[i]), table[Key(userId, ids[i])])
  {
    if ids == [] then [] else [Record(Key(userId, ids[0]), table[Key(userId, ids[0])])] + RecordsOf(table, userId, ids[1..])
  }

  lemma RecordsOfSnoc(table: Table, userId: string, ids: seq<string>, id: string)
    requires forall x :: x in ids ==> Key(userId, x) in table
    requires Key(userId, id) in table
    ensures RecordsOf(table, userId, ids + [id]) == RecordsOf(table, userId, ids) + [Record(Key(userId, id), table[Key(userId, id)])]
  {
    var ids' := ids + [id];
    assert forall i :: 0 <= i < |ids| ==> ids'[i] == ids[i];
  }

  /** What a query on the partition key returns: the whole partition, ascending by sort key. */
  ghost function Partition(table: Table, userId: string): (rs: seq<Record>)
    ensures SortedByTodoId(rs)
    ensures forall r :: r in rs <==> r.key.userId == userId && r.key in table && r.item == table[r.key]
  {
    var ids := SortedStrings(IdsOf(table, userId));
    var rs := RecordsOf(table, userId, ids);
    assert forall r: Record :: r.key.userId == userId && r.key in table && r.item == table[r.key] ==> r in rs by {
      forall r: Record | r.key.userId == userId && r.key in table && r.item == table[r.key]
        ensures r in rs
      {
        var i :| 0 <= i < |ids| && ids[i] == r.key.todoId;
        assert rs[i] == r;
      }
    }
    rs
  }

  /** `items.filter(item => item.status === status)` */
  function FilterByStatus(rs: seq<Record>, status: string): (out: seq<Record>)
    ensures forall r :: r in out <==> r in rs && r.item.status == Some(status)
  {
    if rs == [] then []
    else
      assert forall r :: r in rs <==> r == rs[0] || r in rs[1..] by {
        assert rs == [rs[0]] + rs[1..];
      }
      if rs[0].item.status == Some(status) then [rs[0]] + FilterByStatus(rs[1..], status)
      else FilterByStatus(rs[1..], status)
  }

  lemma {:induction false} FilterSorted(rs: seq<Record>, status: string)
    requires SortedByTodoId(rs)
    ensures SortedByTodoId(FilterByStatus(rs, status))
  {
    if rs != [] {
      var rest := FilterByStatus(rs[1..], status);
      FilterSorted(rs[1..], status);
      forall r | r in rest
        ensures Less(rs[0].key.todoId, r.key.todoId)
      {
        var j :| 0 <= j < |rs[1..]| && rs[1..][j] == r;
        assert rs[j + 1] == r;
      }
    }
  }

  /** Filtering keeps the relative order of the records it keeps. */
  lemma {:induction false} FilterAppend(a: seq<Record>, b: seq<Record>, status: string)
    ensures FilterByStatus(a + b, status) == FilterByStatus(a, status) + FilterByStatus(b, status)
  {
    if a != [] {
      var ab := a + b;
      assert ab != [] && ab[0] == a[0] && ab[1..] == a[1..] + b;
      FilterAppend(a[1..], b, status);
      if a[0].item.status == Some(status) {
        calc {
          FilterByStatus(ab, status);
          [a[0]] + FilterByStatus(a[1..] + b, status);
          [a[0]] + (FilterByStatus(a[1..], status) + FilterByStatus(b, status));
          ([a[0]] + FilterByStatus(a[1..], status)) + FilterByStatus(b, status);
          FilterByStatus(a, status) + FilterByStatus(b, status);
        }
      }
    } else {
      assert a + b == b;
    }
  }

  ghost function ListSpec(table: Table, pathParameters: Option<map<string, string>>,
                          queryStringParameters: Option<map<string, string>>): (out: Outcome)
    ensures out.table == table && out.calls == []
    ensures FailsCleanly(table, out)
    ensures var uid := Param(pathParameters, "userId");
      && (out.response.statusCode == 200 <==> Truthy(uid))
      && (!Truthy(uid) ==> out.response == InternalError(InvalidKey))
      && (Truthy(uid) ==>
            var status := Param(queryStringParameters, "status");
            && out.response.body.Items?
            && SortedByTodoId(out.response.body.items)
            && forall r :: r in out.response.body.items <==>
                 && r.key.userId == uid.value && r.key in table && r.item == table[r.key]
                 && (Truthy(status) ==> r.item.status == status))
  {
    var uid := Param(pathParameters, "userId");
    if !Truthy(uid) then Outcome(InternalError(InvalidKey), table, [])
    else
      var items := Partition(table, uid.value);
      var status := Param(queryStringParameters, "status");
      if Truthy(status) then
        FilterSorted(items, status.value);
        Outcome(Response(200, Items(FilterByStatus(items, status.value))), table, [])
      else Outcome(Response(200, Items(items)), table, [])
  }

  // ---------------------------------------------------------------------------
  // Update

  /** One `set` clause of the update expression. */
  datatype Assignment =
    | SetDescription(description: string)
    | SetStatus(status: string)
    | SetPriority(priority: int)
    | SetCompleted(completed: bool)

  /** The patch an update body yields: description, status and priority only when
      truthy, completed whenever it is present. */
  function PatchOf(b: Body): (patch: seq<Assignment>)
    ensures patch == [] <==> !Truthy(b.description) && !Truthy(b.status) && !TruthyInt(b.priority) && b.completed.None?
    ensures |patch| <= 4
  {
    (if Truthy(b.description) then [SetDescription(b.description.value)] else [])
    + (if Truthy(b.status) then [SetStatus(b.status.value)] else [])
    + (if TruthyInt(b.priority) then [SetPriority(b.priority.value)] else [])
    + (if b.completed.Some? then [SetCompleted(b.completed.value)] else [])
  }

  function Assign(item: Item, a: Assignment): Item
  {
    match a
    case SetDescription(d) => item.(description := Some(d))
    case SetStatus(s) => item.(status := Some(s))
    case SetPriority(p) => item.(priority := Some(p))
    case SetCompleted(c) => item.(completed := Some(c))
  }

  /** The item after the store applies the `set` clauses in order. */
  function ApplyPatch(item: Item, patch: seq<Assignment>): (r: Item)
    ensures r.translations == item.translations
    ensures (forall a :: a in patch ==> !a.SetDescription?) ==> r.description == item.description
    ensures (forall a :: a in patch ==> !a.SetStatus?) ==> r.status == item.status
    ensures (forall a :: a in patch ==> !a.SetPriority?) ==> r.priority == item.priority
    ensures (forall a :: a in patch ==> !a.SetCompleted?) ==> r.completed == item.completed
    decreases |patch|
  {
    if patch == [] then item
    else
      assert forall a :: a in patch[1..] ==> a in patch;
      ApplyPatch(Assign(item, patch[0]), patch[1..])
  }

  lemma {:induction false} ApplyPatchAppend(item: Item, p: seq<Assignment>, q: seq<Assignment>)
    ensures ApplyPatch(item, p + q) == ApplyPatch(ApplyPatch(item, p), q)
    decreases |p|
  {
    if p != [] {
      assert (p + q)[0] == p[0];
      assert (p + q)[1..] == p[1..] + q;
      ApplyPatchAppend(Assign(item, p[0]), p[1..], q);
    } else {
      assert p + q == q;
    }
  }

  /** Field by field: what an update body does to an item. */
  lemma PatchedFields(item: Item, b: Body)
    ensures var r := ApplyPatch(item, PatchOf(b));
      && r.description == (if Truthy(b.description) then b.description else item.description)
      && r.status == (if Truthy(b.status) then b.status else item.status)
      && r.priority == (if TruthyInt(b.priority) then b.priority else item.priority)
      && r.completed == (if b.completed.Some? then b.completed else item.completed)
      && r.translations == item.translations
  {
    var p1 := if Truthy(b.description) then [SetDescription(b.description.value)] else [];
    var p2 := if Truthy(b.status) then [SetStatus(b.status.value)] else [];
    var p3 := if TruthyInt(b.priority) then [SetPriority(b.priority.value)] else [];
    var p4 := if b.completed.Some? then [SetCompleted(b.completed.value)] else [];
    assert PatchOf(b) == p1 + p2 + p3 + p4;
    ApplyPatchAppend(item, p1 + p2 + p3, p4);
    ApplyPatchAppend(item, p1 + p2, p3);
    ApplyPatchAppend(item, p1, p2);
    var i1 := ApplyPatch(item, p1);
    var i2 := ApplyPatch(i1, p2);
    var i3 := ApplyPatch(i2, p3);
    ApplyShort(item, p1);
    ApplyShort(i1, p2);
    ApplyShort(i2, p3);
    ApplyShort(i3, p4);
  }

  lemma ApplyShort(item: Item, patch: seq<Assignment>)
    requires |patch| <= 1
    ensures ApplyPatch(item, patch) == if patch == [] then item else Assign(item, patch[0])
  {
    if patch != [] {
      assert ApplyPatch(Assign(item, patch[0]), patch[1..]) == Assign(item, patch[0]);
    }
  }

  /** `priority: 0` and `description: ""` leave those fields alone; `completed: false` is written. */
  lemma FalsyFieldsDropped(item: Item, b: Body)
    requires b.priority == Some(0) && b.description == Some("")
    requires b.completed == Some(false)
    ensures ApplyPatch(item, PatchOf(b)).priority == item.priority
    ensures ApplyPatch(item, PatchOf(b)).description == item.description
    ensures ApplyPatch(item, PatchOf(b)).completed == Some(false)
  {
    PatchedFields(item, b);
  }

  function UpdateSpec(table: Table, pathParameters: Option<map<string, string>>, body: Option<Body>): (out: Outcome)
    ensures FailsCleanly(table, out)
    ensures out.calls == []
    ensures body.None? ==> out.response == InternalError(MalformedBody) && out.table == table
    ensures body.Some? && PatchOf(body.value) == [] ==>
      out.response == Response(400, Message("No valid fields to update")) && out.table == table
    ensures out.response.statusCode == 200 <==>
      body.Some? && PatchOf(body.value) != [] && KeyOf(Param(pathParameters, "userId"), Param(pathParameters, "todoId")).Some?
    ensures body.Some? && PatchOf(body.value) != [] && KeyOf(Param(pathParameters, "userId"), Param(pathParameters, "todoId")).None? ==>
      out.response == InternalError(InvalidKey)
    ensures out.response.statusCode != 200 ==> out.table == table
    ensures out.response.statusCode == 200 ==>
      var k := KeyOf(Param(pathParameters, "userId"), Param(pathParameters, "todoId")).value;
      && out.table.Keys == table.Keys + {k}
      && out.table[k] == ApplyPatch(Existing(table, k), PatchOf(body.value))
      && (forall k' :: k' in table && k' != k ==> out.table[k'] == table[k'])
      && out.response.body == ItemMessage("Todo item updated", Record(k, out.table[k]))
  {
    if body.None? then Outcome(InternalError(MalformedBody), table, [])
    else
      var patch := PatchOf(body.value);
      if patch == [] then Outcome(Response(400, Message("No valid fields to update")), table, [])
      else match KeyOf(Param(pathParameters, "userId"), Param(pathParameters, "todoId"))
        case None => Outcome(InternalError(InvalidKey), table, [])
        case Some(k) =>
          var updated := ApplyPatch(Existing(table, k), patch);
          Outcome(Response(200, ItemMessage("Todo item updated", Record(k, updated))), table[k := updated], [])
  }

  // ---------------------------------------------------------------------------
  // Translate with cache

  /** The cached translation the handler serves: present in `translations` and non-empty. */
  function CachedTranslation(item: Item, language: string): (t: Option<string>)
    ensures t.Some? <==> item.translations.Some? && language in item.translations.value
                         && item.translations.value[language] != ""
    ensures t.Some? ==> t.value == item.translations.value[language] && t.value != ""
  {
    if item.translations.Some? && language in item.translations.value && item.translations.value[language] != ""
    then Some(item.translations.value[language])
    else None
  }

  /** The store's `set translations.#lang = :translated`: refused when the item has no map. */
  function WithTranslation(item: Item, language: string, text: string): (r: Option<Item>)
    ensures r.Some? <==> item.translations.Some?
    ensures r.Some? ==>
      && item.translations.Some? && r.value.translations == Some(item.translations.value[language := text])
      && r.value.(translations := item.translations) == item
  {
    if item.translations.None? then None
    else Some(item.(translations := Some(item.translations.value[language := text])))
  }

  function TranslateSpec(table: Table, pathParameters: Option<map<string, string>>,
                         queryStringParameters: Option<map<string, string>>, translate: Translator): (out: Outcome)
    ensures |out.calls| <= 1
    ensures forall r :: r in out.calls ==> Sendable(r)
    ensures out.response.statusCode in {200, 400, 404, 500}
    ensures FailsCleanly(table, out)
    ensures var lang := Param(queryStringParameters, "language");
      && (!Truthy(lang) ==>
            out == Outcome(Response(400, Message("Target language query parameter is required")), table, []))
      && (Truthy(lang) && KeyOf(Param(pathParameters, "userId"), Param(pathParameters, "todoId")).None? ==>
            out == Outcome(InternalError(InvalidKey), table, []))
    ensures var lang := Param(queryStringParameters, "language");
      var key := KeyOf(Param(pathParameters, "userId"), Param(pathParameters, "todoId"));
      Truthy(lang) && key.Some? ==>
        && (key.value !in table ==> out == Outcome(Response(404, Message("Todo item not found")), table, []))
        && (key.value in table && CachedTranslation(table[key.value], lang.value).Some? ==>
              out == Outcome(Response(200, Translation(CachedTranslation(table[key.value], lang.value).value, true)), table, []))
        && (key.value in table && CachedTranslation(table[key.value], lang.value).None? ==>
              var item := table[key.value];
              && (!Truthy(item.description) || Utf16Length(lang.value) < 2 ==>
                    out == Outcome(InternalError(InvalidParameter), table, []))
              && (Truthy(item.description) && Utf16Length(lang.value) >= 2 ==>
                    var req := TranslateRequest(item.description.value, AutoDetect, lang.value);
                    && out.calls == [req]
                    && (translate(req).TranslateError? ==>
                          out.response == InternalError(TranslateFailed(translate(req).message)) && out.table == table)
                    && (translate(req).Translated? && item.translations.None? ==>
                          out.response == InternalError(InvalidDocumentPath) && out.table == table)
                    && (translate(req).Translated? && item.translations.Some? ==>
                          var t := translate(req).translatedText;
                          && out.response == Response(200, Translation(t, false))
                          && out.table.Keys == table.Keys
                          && out.table[key.value] == WithTranslation(item, lang.value, t).value
                          && forall k' :: k' in table && k' != key.value ==> out.table[k'] == table[k'])))
  {
    var lang := Param(queryStringParameters, "language");
    if !Truthy(lang) then Outcome(Response(400, Message("Target language query parameter is required")), table, [])
    else match KeyOf(Param(pathParameters, "userId"), Param(pathParameters, "todoId"))
      case None => Outcome(InternalError(InvalidKey), table, [])
      case Some(k) =>
        if k !in table then Outcome(Response(404, Message("Todo item not found")), table, [])
        else
          var item := table[k];
          match CachedTranslation(item, lang.value)
          case Some(t) => Outcome(Response(200, Translation(t, true)), table, [])
          case None =>
            if item.description.None? || !Sendable(TranslateRequest(item.description.value, AutoDetect, lang.value)) then
              Outcome(InternalError(InvalidParameter), table, [])
            else
              var req := TranslateRequest(item.description.value, AutoDetect, lang.value);
              match translate(req)
              case TranslateError(msg) => Outcome(InternalError(TranslateFailed(msg)), table, [req])
              case Translated(t) =>
                match WithTranslation(item, lang.value, t)
                case None => Outcome(InternalError(InvalidDocumentPath), table, [req])
                case Some(cachedItem) => Outcome(Response(200, Translation(t, false)), table[k := cachedItem], [req])
  }

  // ---------------------------------------------------------------------------
  // The whole handler

  ghost function HandleSpec(table: Table, event: Event, translate: Translator): (out: Outcome)
    ensures |out.calls| <= 1
    ensures out.calls != [] ==> RouteOf(event.httpMethod, event.resource) == TranslateRoute
    ensures forall r :: r in out.calls ==> Sendable(r)
    ensures table.Keys <= out.table.Keys
    ensures out.response.statusCode in {200, 201, 400, 404, 500}
    ensures RouteOf(event.httpMethod, event.resource) == Unsupported ==>
      out == Outcome(Response(400, Message("Unsupported route or method")), table, [])
    ensures out.response.statusCode == 500 <==> out.response.body.ServerError?
    ensures out.response.statusCode == 500 ==>
      out.response.body.message == "Internal server error" && out.table == table
  {
    match RouteOf(event.httpMethod, event.resource)
    case CreateRoute => CreateSpec(table, event.body)
    case ListRoute => ListSpec(table, event.pathParameters, event.queryStringParameters)
    case UpdateRoute => UpdateSpec(table, event.pathParameters, event.body)
    case TranslateRoute => TranslateSpec(table, event.pathParameters, event.queryStringParameters, translate)
    case Unsupported => Outcome(Response(400, Message("Unsupported route or method")), table, [])
  }

  // ---------------------------------------------------------------------------
  // Properties that relate several requests

  /** A second create on the same key leaves exactly what a create on the original table
      would have left: the earlier item is replaced, never merged. */
  lemma CreateReplaces(table: Table, b1: Body, b2: Body)
    requires KeyOf(b1.userId, b1.todoId).Some?
    requires KeyOf(b1.userId, b1.todoId) == KeyOf(b2.userId, b2.todoId)
    ensures CreateSpec(CreateSpec(table, Some(b1)).table, Some(b2)).table == CreateSpec(table, Some(b2)).table
    ensures CreateSpec(CreateSpec(table, Some(b1)).table, Some(b2)).response == CreateSpec(table, Some(b2)).response
  {
    var k := KeyOf(b1.userId, b1.todoId).value;
    assert table[k := NewItem(b1)][k := NewItem(b2)] == table[k := NewItem(b2)];
  }

  /** An item just created shows up in its owner's list. */
  lemma CreatedItemIsListed(table: Table, b: Body, query: Option<map<string, string>>)
    requires KeyOf(b.userId, b.todoId).Some?
    requires !Truthy(Param(query, "status")) || Param(query, "status") == NewItem(b).status
    ensures var k := KeyOf(b.userId, b.todoId).value;
      var listed := ListSpec(CreateSpec(table, Some(b)).table, Some(map["userId" := k.userId]), query);
      listed.response.body.Items? && Record(k, NewItem(b)) in listed.response.body.items
  {
  }

  /** The same update sent twice leaves the table and the response as one did. */
  lemma UpdateIdempotent(table: Table, pathParameters: Option<map<string, string>>, body: Option<Body>)
    ensures var first := UpdateSpec(table, pathParameters, body);
      UpdateSpec(first.table, pathParameters, body) == first
  {
    var first := UpdateSpec(table, pathParameters, body);
    var key := KeyOf(Param(pathParameters, "userId"), Param(pathParameters, "todoId"));
    if first.response.statusCode == 200 {
      var k := key.value;
      var updated := ApplyPatch(Existing(table, k), PatchOf(body.value));
      PatchedFields(Existing(table, k), body.value);
      PatchedFields(updated, body.value);
      assert ApplyPatch(updated, PatchOf(body.value)) == updated;
      assert Existing(first.table, k) == updated;
      assert first.table[k := updated] == first.table;
    }
  }

  /** A translation fetched from the service is served from the cache on the next
      identical request, without calling the service, provided it is non-empty. */
  lemma CacheMissThenHit(table: Table, event: Event, translate: Translator, t: string)
    requires RouteOf(event.httpMethod, event.resource) == TranslateRoute
    requires HandleSpec(table, event, translate).response.body == Translation(t, false)
    requires t != ""
    ensures |HandleSpec(table, event, translate).calls| == 1
    ensures var first := HandleSpec(table, event, translate);
      var second := HandleSpec(first.table, event, translate);
      && second.response == Response(200, Translation(t, true))
      && second.table == first.table
      && second.calls == []
  {
    var first := HandleSpec(table, event, translate);
    var lang := Param(event.queryStringParameters, "language").value;
    var k := KeyOf(Param(event.pathParameters, "userId"), Param(event.pathParameters, "todoId")).value;
    assert k in first.table;
    assert CachedTranslation(first.table[k], lang) == Some(t);
  }

  /** An empty translation is written to the cache but never served from it: the next
      identical request calls the service again. */
  lemma EmptyTranslationNotServed(table: Table, event: Event, translate: Translator)
    requires RouteOf(event.httpMethod, event.resource) == TranslateRoute
    requires HandleSpec(table, event, translate).response.body == Translation("", false)
    ensures var first := HandleSpec(table, event, translate);
      var second := HandleSpec(first.table, event, translate);
      second.calls == first.calls && |second.calls| == 1
  {
    var first := HandleSpec(table, event, translate);
    var lang := Param(event.queryStringParameters, "language").value;
    var k := KeyOf(Param(event.pathParameters, "userId"), Param(event.pathParameters, "todoId")).value;
    assert k in first.table;
    assert CachedTranslation(first.table[k], lang).None?;
    assert first.table[k].description == table[k].description;
  }

  /** An update on a key that holds nothing creates an item without a translation
      map; asking for a translation of it then always ends in a 500 and caches nothing. */
  lemma UpsertedItemNeverCaches(table: Table, pathParameters: Option<map<string, string>>, body: Body,
                                queryStringParameters: Option<map<string, string>>, translate: Translator)
    requires KeyOf(Param(pathParameters, "userId"), Param(pathParameters, "todoId")).Some?
    requires KeyOf(Param(pathParameters, "userId"), Param(pathParameters, "todoId")).value !in table
    requires PatchOf(body) != []
    requires Truthy(Param(queryStringParameters, "language"))
    ensures var updated := UpdateSpec(table, pathParameters, Some(body)).table;
      var out := TranslateSpec(updated, pathParameters, queryStringParameters, translate);
      out.response.statusCode == 500 && out.table == updated
  {
    var k := KeyOf(Param(pathParameters, "userId"), Param(pathParameters, "todoId")).value;
    var updated := UpdateSpec(table, pathParameters, Some(body)).table;
    assert k in updated && updated[k].translations.None?;
    assert CachedTranslation(updated[k], Param(queryStringParameters, "language").value).None?;
  }

  /** A description change keeps the translations cached for the old description: the
      next translation request serves the stale text and does not call the service. */
  lemma StaleTranslationServed(table: Table, pathParameters: Option<map<string, string>>, body: Body,
                               queryStringParameters: Option<map<string, string>>, translate: Translator, t: string)
    requires KeyOf(Param(pathParameters, "userId"), Param(pathParameters, "todoId")).Some?
    requires KeyOf(Param(pathParameters, "userId"), Param(pathParameters, "todoId")).value in table
    requires Truthy(Param(queryStringParameters, "language"))
    requires CachedTranslation(table[KeyOf(Param(pathParameters, "userId"), Param(pathParameters, "todoId")).value],
                               Param(queryStringParameters, "language").value) == Some(t)
    requires PatchOf(body) != []
    ensures var updated := UpdateSpec(table, pathParameters, Some(body)).table;
      TranslateSpec(updated, pathParameters, queryStringParameters, translate)
        == Outcome(Response(200, Translation(t, true)), updated, [])
  {
    var k := KeyOf(Param(pathParameters, "userId"), Param(pathParameters, "todoId")).value;
    PatchedFields(table[k], body);
    var updated := UpdateSpec(table, pathParameters, Some(body)).table;
    assert updated[k].translations == table[k].translations;
  }

  /** `text` is what a logged request for `language` got back from the service. */
  ghost predicate FromCall(calls: seq<TranslateRequest>, translate: Translator, language: string, text: string)
  {
    exists r :: r in calls && r.targetLanguageCode == language && translate(r) == Translated(text)
  }

  /** Every cached translation is the answer to a logged request for that very language. */
  ghost predicate CacheFromCalls(table: Table, calls: seq<TranslateRequest>, translate: Translator)
  {
    forall k, language :: k in table && table[k].translations.Some? && language in table[k].translations.value ==>
      FromCall(calls, translate, language, table[k].translations.value[language])
  }

  lemma FromCallKept(calls: seq<TranslateRequest>, more: seq<TranslateRequest>, translate: Translator,
                     language: string, text: string)
    requires FromCall(calls, translate, language, text)
    ensures FromCall(calls + more, translate, language, text)
  {
    var r :| r in calls && r.targetLanguageCode == language && translate(r) == Translated(text);
    assert r in calls + more;
  }

  lemma TranslateKeepsCacheFromCalls(table: Table, calls: seq<TranslateRequest>, pathParameters: Option<map<string, string>>,
                                     queryStringParameters: Option<map<string, string>>, translate: Translator)
    requires CacheFromCalls(table, calls, translate)
    ensures var out := TranslateSpec(table, pathParameters, queryStringParameters, translate);
      CacheFromCalls(out.table, calls + out.calls, translate)
  {
    var out := TranslateSpec(table, pathParameters, queryStringParameters, translate);
    var lang := Param(queryStringParameters, "language");
    var key := KeyOf(Param(pathParameters, "userId"), Param(pathParameters, "todoId"));
    forall k, language | k in out.table && out.table[k].translations.Some? && language in out.table[k].translations.value
      ensures FromCall(calls + out.calls, translate, language, out.table[k].translations.value[language])
    {
      if out.table == table {
        FromCallKept(calls, out.calls, translate, language, out.table[k].translations.value[language]);
      } else {
        var item := table[key.value];
        var req := TranslateRequest(item.description.value, AutoDetect, lang.value);
        assert out.calls == [req] && translate(req).Translated?;
        if k == key.value && language == lang.value {
          assert req in calls + out.calls;
        } else {
          assert k in table && table[k].translations.Some? && language in table[k].translations.value;
          assert out.table[k].translations.value[language] == table[k].translations.value[language];
          FromCallKept(calls, out.calls, translate, language, out.table[k].translations.value[language]);
        }
      }
    }
  }

  /** No request of any route puts a text into a translation cache unless it is the
      service's answer to a request, logged by that point, for that language. */
  lemma HandleKeepsCacheFromCalls(table: Table, calls: seq<TranslateRequest>, event: Event, translate: Translator)
    requires CacheFromCalls(table, calls, translate)
    ensures var out := HandleSpec(table, event, translate);
      CacheFromCalls(out.table, calls + out.calls, translate)
  {
    var out := HandleSpec(table, event, translate);
    match RouteOf(event.httpMethod, event.resource)
    case TranslateRoute =>
      TranslateKeepsCacheFromCalls(table, calls, event.pathParameters, event.queryStringParameters, translate);
    case _ =>
      assert out.calls == [] && calls + out.calls == calls;
      forall k, language | k in out.table && out.table[k].translations.Some? && language in out.table[k].translations.value
        ensures FromCall(calls, translate, language, out.table[k].translations.value[language])
      {
        assert k in table && out.table[k].translations == table[k].translations;
      }
  }
}
