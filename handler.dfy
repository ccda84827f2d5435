/** The Lambda handler with the table it reads and writes in place and the
    translation service it calls. */
module Handler {
  import opened StringOrder
  import opened Todo

  /** Builds the update's `set` clauses one field at a time, as the handler pushes
      them onto its update expression. */
  method BuildPatch(b: Body) returns (patch: seq<Assignment>)
    ensures patch == PatchOf(b)
  {
    patch := [];
    if Truthy(b.description) {
      patch := patch + [SetDescription(b.description.value)];
    }
    if Truthy(b.status) {
      patch := patch + [SetStatus(b.status.value)];
    }
    if TruthyInt(b.priority) {
      patch := patch + [SetPriority(b.priority.value)];
    }
    if b.completed.Some? {
      patch := patch + [SetCompleted(b.completed.value)];
    }
  }

  class TodoApi {
    /** The table, keyed by (userId, todoId). */
    var table: Table
    /** The translation service. */
    const translate: Translator
    /** Every request sent to the translation service, oldest first. */
    ghost var translateCalls: seq<TranslateRequest>

    constructor (initial: Table, translate: Translator)
      ensures table == initial && this.translate == translate && translateCalls == []
    {
      table := initial;
      this.translate := translate;
      translateCalls := [];
    }

    // -------------------------------------------------------------------------
    // The store's operations

    /** `put`: stores `item` at `key`, replacing whatever was there. */
    method Put(key: Key, item: Item)
      modifies this`table
      ensures table == old(table)[key := item]
    {
      table := table[key := item];
    }

    /** `get`: the item at `key`, if there is one. */
    method Get(key: Key) returns (found: Option<Item>)
      ensures found.Some? <==> key in table
      ensures found.Some? ==> found.value == table[key]
    {
      found := if key in table then Some(table[key]) else None;
    }

    /** `query` on the partition key: the whole partition, ascending by sort key. */
    method Query(userId: string) returns (records: seq<Record>)
      ensures records == Partition(table, userId)
    {
      var remaining := IdsOf(table, userId);
      ghost var all := remaining;
      ghost var done: seq<string> := [];
      records := [];
      while remaining != {}
        invariant remaining <= all == IdsOf(table, userId)
        invariant done + SortedStrings(remaining) == SortedStrings(all)
        invariant forall id :: id in done ==> Key(userId, id) in table
        invariant records == RecordsOf(table, userId, done)
        decreases remaining
      {
        LeastExists(remaining);
        var m :| IsLeast(m, remaining);
        SortedStringsShift(done, m, remaining);
        RecordsOfSnoc(table, userId, done, m);
        records := records + [Record(Key(userId, m), table[Key(userId, m)])];
        done := done + [m];
        remaining := remaining - {m};
      }
      assert done == SortedStrings(all);
    }

    /** `update` with `set` clauses, returning the whole new item; a key that holds
        nothing yet is created with just the patched attributes. */
    method UpdateItem(key: Key, patch: seq<Assignment>) returns (updated: Item)
      modifies this`table
      ensures updated == ApplyPatch(Existing(old(table), key), patch)
      ensures table == old(table)[key := updated]
    {
      updated := ApplyPatch(Existing(table, key), patch);
      table := table[key := updated];
    }

    /** `update` with `set translations.#lang = :translated`: refused, changing
        nothing, when the item has no translation map. */
    method SetTranslation(key: Key, language: string, text: string) returns (ok: bool)
      modifies this`table
      ensures ok <==> key in old(table) && old(table)[key].translations.Some?
      ensures ok ==> table == old(table)[key := WithTranslation(old(table)[key], language, text).value]
      ensures !ok ==> table == old(table)
    {
      if key in table {
        var cached := WithTranslation(table[key], language, text);
        if cached.Some? {
          table := table[key := cached.value];
          return true;
        }
      }
      return false;
    }

    // -------------------------------------------------------------------------
    // The translation service

    method TranslateText(request: TranslateRequest) returns (result: TranslateResult)
      modifies this`translateCalls
      ensures result == translate(request)
      ensures translateCalls == old(translateCalls) + [request]
    {
      translateCalls := translateCalls + [request];
      result := translate(request);
    }

    // -------------------------------------------------------------------------
    // The handler

    /** Routes one request; every failure of the store or the translation service
        becomes a 500 response. */
    method Handle(event: Event) returns (response: Response)
      modifies this`table, this`translateCalls
      ensures var out := HandleSpec(old(table), event, translate);
        && response == out.response
        && table == out.table
        && translateCalls == old(translateCalls) + out.calls
      ensures CacheFromCalls(old(table), old(translateCalls), translate) ==>
        CacheFromCalls(table, translateCalls, translate)
    {
      if CacheFromCalls(table, translateCalls, translate) {
        HandleKeepsCacheFromCalls(table, translateCalls, event, translate);
      }
      match RouteOf(event.httpMethod, event.resource)
      case CreateRoute =>
        response := Create(event.body);
      case ListRoute =>
        response := List(event.pathParameters, event.queryStringParameters);
      case UpdateRoute =>
        response := Update(event.pathParameters, event.body);
      case TranslateRoute =>
        response := Translate(event.pathParameters, event.queryStringParameters);
      case Unsupported =>
        response := Response(400, Message("Unsupported route or method"));
    }

    /** POST /todos */
    method Create(body: Option<Body>) returns (response: Response)
      modifies this`table
      ensures var out := CreateSpec(old(table), body);
        response == out.response && table == out.table
    {
      if body.None? {
        return InternalError(MalformedBody);
      }
      var b := body.value;
      var item := NewItem(b);
      var key := KeyOf(b.userId, b.todoId);
      if key.None? {
        return InternalError(InvalidKey);
      }
      Put(key.value, item);
      response := Response(201, ItemMessage("Todo item created", Record(key.value, item)));
    }

    /** GET /todos/{userId} */
    method List(pathParameters: Option<map<string, string>>, queryStringParameters: Option<map<string, string>>)
      returns (response: Response)
      ensures response == ListSpec(table, pathParameters, queryStringParameters).response
    {
      var userId := Param(pathParameters, "userId");
      if !Truthy(userId) {
        return InternalError(InvalidKey);
      }
      var items := Query(userId.value);
      var status := Param(queryStringParameters, "status");
      if Truthy(status) {
        items := FilterByStatus(items, status.value);
      }
      response := Response(200, Items(items));
    }

    /** PUT /todos/{userId}/{todoId} */
    method Update(pathParameters: Option<map<string, string>>, body: Option<Body>) returns (response: Response)
      modifies this`table
      ensures var out := UpdateSpec(old(table), pathParameters, body);
        response == out.response && table == out.table
    {
      if body.None? {
        return InternalError(MalformedBody);
      }
      var patch := BuildPatch(body.value);
      if patch == [] {
        return Response(400, Message("No valid fields to update"));
      }
      var key := KeyOf(Param(pathParameters, "userId"), Param(pathParameters, "todoId"));
      if key.None? {
        return InternalError(InvalidKey);
      }
      var updated := UpdateItem(key.value, patch);
      response := Response(200, ItemMessage("Todo item updated", Record(key.value, updated)));
    }

    /** GET /todos/{userId}/{todoId}/translation?language=xx */
    method Translate(pathParameters: Option<map<string, string>>, queryStringParameters: Option<map<string, string>>)
      returns (response: Response)
      modifies this`table, this`translateCalls
      ensures var out := TranslateSpec(old(table), pathParameters, queryStringParameters, translate);
        && response == out.response
        && table == out.table
        && translateCalls == old(translateCalls) + out.calls
    {
      var language := Param(queryStringParameters, "language");
      if !Truthy(language) {
        return Response(400, Message("Target language query parameter is required"));
      }
      var key := KeyOf(Param(pathParameters, "userId"), Param(pathParameters, "todoId"));
      if key.None? {
        return InternalError(InvalidKey);
      }
      var found := Get(key.value);
      if found.None? {
        return Response(404, Message("Todo item not found"));
      }
      var item := found.value;
      var cached := CachedTranslation(item, language.value);
      if cached.Some? {
        return Response(200, Translation(cached.value, true));
      }
      if item.description.None? {
        return InternalError(InvalidParameter);
      }
      var request := TranslateRequest(item.description.value, AutoDetect, language.value);
      if !Sendable(request) {
        return InternalError(InvalidParameter);
      }
      var result := TranslateText(request);
      if result.TranslateError? {
        return InternalError(TranslateFailed(result.message));
      }
      var ok := SetTranslation(key.value, language.value, result.translatedText);
      if !ok {
        return InternalError(InvalidDocumentPath);
      }
      response := Response(200, Translation(result.translatedText, false));
    }
  }
}
