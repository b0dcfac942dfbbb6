/**
 * The embed / webhook composer bot: two drafts edited through modal forms,
 * the webhook id and token derived from the draft's URL, the guard in front
 * of the webhook call, and the view that holds the drafts for one user.
 */
module Modals {
  import opened Wrappers
  import opened PyStr
  import opened Session

  /**
   * The two dataclasses whose attributes the editors write by name. Every
   * attribute is optional text and starts out as `None`.
   */
  datatype Draft =
    | Embed(title: Option<string>, description: Option<string>, thumbnailUrl: Option<string>)
    | Webhook(url: Option<string>, username: Option<string>, avatarUrl: Option<string>)
  {
    /** The attribute names, in the order the editor lists its fields. */
    function Keys(): (keys: seq<string>)
      ensures |keys| == 3 && keys[0] != keys[1] && keys[0] != keys[2] && keys[1] != keys[2]
    {
      if Embed? then ["title", "description", "thumbnail_url"] else ["url", "username", "avatar_url"]
    }

    predicate HasField(key: string)
    {
      key in Keys()
    }

    /** `getattr(draft, key)`. */
    function Get(key: string): Option<string>
      requires HasField(key)
    {
      match this
      case Embed(t, d, th) => if key == "title" then t else if key == "description" then d else th
      case Webhook(u, n, a) => if key == "url" then u else if key == "username" then n else a
    }

    /**
     * `setattr(draft, key, value)`. A key naming none of the three attributes
     * leaves all three as they were.
     */
    function With(key: string, value: Option<string>): (r: Draft)
      ensures r.Embed? == Embed?
      ensures HasField(key) ==> r.Get(key) == value
      ensures forall k :: HasField(k) && k != key ==> r.Get(k) == Get(k)
      ensures !HasField(key) ==> r == this
    {
      match this
      case Embed(t, d, th) =>
        if key == "title" then Embed(value, d, th)
        else if key == "description" then Embed(t, value, th)
        else if key == "thumbnail_url" then Embed(t, d, value)
        else this
      case Webhook(u, n, a) =>
        if key == "url" then Webhook(value, n, a)
        else if key == "username" then Webhook(u, value, a)
        else if key == "avatar_url" then Webhook(u, n, value)
        else this
    }
  }

  /** A draft is nothing more than its three attributes. */
  lemma DraftExtensional(d: Draft, e: Draft)
    requires d.Embed? == e.Embed?
    requires forall k :: d.HasField(k) ==> d.Get(k) == e.Get(k)
    ensures d == e
  {
    var keys := d.Keys();
    assert d.Get(keys[0]) == e.Get(keys[0]);
    assert d.Get(keys[1]) == e.Get(keys[1]);
    assert d.Get(keys[2]) == e.Get(keys[2]);
  }

  /** One text field of a modal: the attribute it edits, its prompt (label), its current text, and whether it is a paragraph box. */
  datatype TextInput = TextInput(customId: string, prompt: string, value: Option<string>, paragraph: bool)

  /** The modal's title. */
  function EditorTitle(d: Draft): string
  {
    if d.Embed? then "Embed Editor" else "Webhook Editor"
  }

  /**
   * `EmbedEditor(embed)` / `WebhookEditor(webhook)`: one field per attribute,
   * in attribute order, pre-filled with the attribute's current value.
   */
  function Editor(d: Draft): (items: seq<TextInput>)
    ensures |items| == |d.Keys()|
    ensures forall i :: 0 <= i < |items| ==> items[i].customId == d.Keys()[i] && items[i].value == d.Get(d.Keys()[i])
  {
    match d
    case Embed(t, desc, th) =>
      [TextInput("title", "Title", t, false),
       TextInput("description", "Description", desc, true),
       TextInput("thumbnail_url", "Thumbnail URL", th, false)]
    case Webhook(u, n, a) =>
      [TextInput("url", "Webhook URL", u, false),
       TextInput("username", "Username", n, false),
       TextInput("avatar_url", "Avatar URL", a, false)]
  }

  /**
   * How a modal ends: the user submits text for some of its fields (the map
   * from `custom_id` to submitted text, blank text included), or the modal's
   * own timer expires with nothing submitted.
   */
  datatype ModalOutcome = Submitted(values: map<string, string>) | Abandoned

  /** The modal's children once `view.wait()` returns: submitted text replaces the pre-filled value. */
  function Resolve(items: seq<TextInput>, outcome: ModalOutcome): (r: seq<TextInput>)
    ensures |r| == |items|
    ensures forall i :: 0 <= i < |r| ==> r[i].customId == items[i].customId
    ensures forall i :: 0 <= i < |r| ==>
      r[i].value == (if outcome.Submitted? && items[i].customId in outcome.values
                     then Some(outcome.values[items[i].customId]) else items[i].value)
  {
    match outcome
    case Abandoned => items
    case Submitted(values) =>
      seq(|items|, i requires 0 <= i < |items| =>
        if items[i].customId in values then items[i].(value := Some(values[items[i].customId])) else items[i])
  }

  /** The `for item in view.children: setattr(draft, item.custom_id, item.value)` loop, as a fold. */
  function ApplyForm(d: Draft, items: seq<TextInput>): (r: Draft)
    ensures r.Embed? == d.Embed?
    decreases |items|
  {
    if items == [] then d
    else
      var last := items[|items| - 1];
      ApplyForm(d, items[..|items| - 1]).With(last.customId, last.value)
  }

  /** The value of the last item named `key`, or `default` if no item is. */
  function LastValue(items: seq<TextInput>, key: string, default: Option<string>): Option<string>
    decreases |items|
  {
    if items == [] then default
    else if items[|items| - 1].customId == key then items[|items| - 1].value
    else LastValue(items[..|items| - 1], key, default)
  }

  /**
   * Applying a form sets each attribute to the value of the last field named
   * after it and leaves every attribute no field names as it was.
   */
  lemma {:induction false} ApplyFormGet(d: Draft, items: seq<TextInput>, key: string)
    requires d.HasField(key)
    ensures ApplyForm(d, items).HasField(key)
    ensures ApplyForm(d, items).Get(key) == LastValue(items, key, d.Get(key))
    decreases |items|
  {
    if items != [] {
      ApplyFormGet(d, items[..|items| - 1], key);
    }
  }

  /** In a list of fields with distinct names, the field named `key` decides its value. */
  lemma {:induction false} LastValueDistinct(items: seq<TextInput>, key: string, default: Option<string>)
    requires forall i, j :: 0 <= i < j < |items| ==> items[i].customId != items[j].customId
    ensures forall i :: 0 <= i < |items| && items[i].customId == key ==> LastValue(items, key, default) == items[i].value
    decreases |items|
  {
    if items != [] {
      LastValueDistinct(items[..|items| - 1], key, default);
    }
  }

  /** A form none of whose fields names an attribute of the draft changes nothing. */
  lemma ApplyUnknownKeys(d: Draft, items: seq<TextInput>)
    requires forall i :: 0 <= i < |items| ==> !d.HasField(items[i].customId)
    ensures ApplyForm(d, items) == d
  {
    forall k | d.HasField(k)
      ensures ApplyForm(d, items).Get(k) == d.Get(k)
    {
      ApplyFormGet(d, items, k);
      LastValueDistinctNone(items, k, d.Get(k));
    }
    DraftExtensional(ApplyForm(d, items), d);
  }

  /** No field named `key` means the default survives. */
  lemma {:induction false} LastValueDistinctNone(items: seq<TextInput>, key: string, default: Option<string>)
    requires forall i :: 0 <= i < |items| ==> items[i].customId != key
    ensures LastValue(items, key, default) == default
    decreases |items|
  {
    if items != [] {
      LastValueDistinctNone(items[..|items| - 1], key, default);
    }
  }

  /**
   * The editor of a resolved modal sets every attribute the user submitted
   * text for to exactly that text (blank text included) and keeps the others.
   */
  lemma SubmitApplies(d: Draft, outcome: ModalOutcome, key: string)
    requires d.HasField(key)
    ensures ApplyForm(d, Resolve(Editor(d), outcome)).Get(key) ==
      if outcome.Submitted? && key in outcome.values then Some(outcome.values[key]) else d.Get(key)
  {
    var items := Resolve(Editor(d), outcome);
    var keys := d.Keys();
    assert |items| == 3;
    forall i, j | 0 <= i < j < |items|
      ensures items[i].customId != items[j].customId
    {
      assert items[i].customId == keys[i] && items[j].customId == keys[j];
    }
    ApplyFormGet(d, items, key);
    LastValueDistinct(items, key, d.Get(key));
    var i := if key == keys[0] then 0 else if key == keys[1] then 1 else 2;
    assert items[i].customId == key;
  }

  /** Key round trip: applying an editor the user left as it was gives back the same draft. */
  lemma EditorRoundTrip(d: Draft)
    ensures ApplyForm(d, Editor(d)) == d
  {
    assert Resolve(Editor(d), Abandoned) == Editor(d);
    forall k | d.HasField(k)
      ensures ApplyForm(d, Editor(d)).Get(k) == d.Get(k)
    {
      SubmitApplies(d, Abandoned, k);
    }
    DraftExtensional(ApplyForm(d, Editor(d)), d);
  }

  /** Submitting title "T", description "D" and a blank thumbnail URL yields exactly those, clearing the old URL. */
  lemma EmbedSubmissionExample(oldTitle: Option<string>)
    ensures
      var d := Embed(oldTitle, None, Some("https://example.com/a.png"));
      var m := map["title" := "T", "description" := "D", "thumbnail_url" := ""];
      ApplyForm(d, Resolve(Editor(d), Submitted(m))) == Embed(Some("T"), Some("D"), Some(""))
  {
    var d := Embed(oldTitle, None, Some("https://example.com/a.png"));
    var m := map["title" := "T", "description" := "D", "thumbnail_url" := ""];
    var r := ApplyForm(d, Resolve(Editor(d), Submitted(m)));
    SubmitApplies(d, Submitted(m), "title");
    SubmitApplies(d, Submitted(m), "description");
    SubmitApplies(d, Submitted(m), "thumbnail_url");
    DraftExtensional(r, Embed(Some("T"), Some("D"), Some("")));
  }

  /** The two exceptions the `id` property can raise. */
  datatype PyError = IndexError | ValueError

  /** A derived property: `None`, a value, or the exception its expression raises. */
  datatype Derived<T> = Undefined | Value(value: T) | Raises(error: PyError)

  const WebhooksMarker: string := "webhooks/"

  /**
   * `Webhook.id`: `None` for a missing or empty URL, otherwise
   * `int(url.split("webhooks/")[1].split("/")[0])`, which raises `IndexError`
   * when the URL lacks "webhooks/" and `ValueError` when that segment is not
   * a number.
   */
  function WebhookId(url: Option<string>): (r: Derived<nat>)
    ensures r.Undefined? <==> !Truthy(url)
    ensures r == Raises(IndexError) <==> Truthy(url) && Free(url.value, WebhooksMarker)
  {
    if !Truthy(url) then Undefined
    else
      var pieces := Split(url.value, WebhooksMarker);
      if |pieces| < 2 then Raises(IndexError)
      else
        match ParseInt(Split(pieces[1], "/")[0])
        case None => Raises(ValueError)
        case Some(n) => Value(n)
  }

  /**
   * Where the id segment of `t` ends, scanning from `j`: at the first "/" or
   * the first further "webhooks/", whichever comes first, or at the end of `t`.
   */
  function SegmentEnd(t: string, j: nat): (k: nat)
    requires j <= |t|
    ensures j <= k <= |t|
    ensures forall p :: j <= p < k ==> t[p] != '/' && !OccursAt(t, WebhooksMarker, p)
    ensures k == |t| || t[k] == '/' || OccursAt(t, WebhooksMarker, k)
    decreases |t| - j
  {
    if j == |t| || t[j] == '/' || OccursAt(t, WebhooksMarker, j) then j else SegmentEnd(t, j + 1)
  }

  /** The text `int()` is applied to, given what follows the first "webhooks/". */
  function IdSegment(t: string): string
  {
    t[..SegmentEnd(t, 0)]
  }

  /** Only one index has the three properties `SegmentEnd` promises. */
  lemma SegmentEndUnique(t: string, k: nat)
    requires k <= |t|
    requires forall p :: 0 <= p < k ==> t[p] != '/' && !OccursAt(t, WebhooksMarker, p)
    requires k == |t| || t[k] == '/' || OccursAt(t, WebhooksMarker, k)
    ensures k == SegmentEnd(t, 0)
  {
  }

  /** Where no "/" occurs as a one-character piece, there is no '/' character. */
  lemma NoSlashBefore(h: string, b: nat)
    requires b <= |h| && forall p: nat :: p < b ==> !OccursAt(h, "/", p)
    ensures forall p :: 0 <= p < b ==> h[p] != '/'
  {
    forall p | 0 <= p < b
      ensures h[p] != '/'
    {
      assert !OccursAt(h, "/", p);
      assert h[p..p + 1] == [h[p]];
    }
  }

  /** `t.split("webhooks/")[0].split("/")[0]` is the id segment of `t`. */
  lemma FirstPieceIsSegment(t: string)
    ensures Split(Split(t, WebhooksMarker)[0], "/")[0] == IdSegment(t)
  {
    var m := FirstPieceEnd(t, WebhooksMarker);
    var h := t[..m];
    var b := FirstPieceEnd(h, "/");
    NoSlashBefore(h, b);
    forall p | 0 <= p < b
      ensures t[p] != '/' && !OccursAt(t, WebhooksMarker, p)
    {
      assert h[p] == t[p];
    }
    if b < |h| {
      assert h[b..b + 1] == "/";
      assert t[b] == h[b];
    }
    SegmentEndUnique(t, b);
    assert h[..b] == t[..b];
  }

  /**
   * For every URL that contains "webhooks/", `Webhook.id` is the integer value
   * of the text after the first "webhooks/" up to the next "/" or the next
   * "webhooks/", and `ValueError` when that text is not a number.
   */
  lemma WebhookIdSegment(u: string, i: nat)
    requires FindFirst(u, WebhooksMarker) == Some(i)
    ensures var seg := IdSegment(u[i + |WebhooksMarker|..]);
      WebhookId(Some(u)) == if ParseInt(seg).Some? then Value(ParseInt(seg).value) else Raises(ValueError)
  {
    var t := u[i + |WebhooksMarker|..];
    assert Split(u, WebhooksMarker) == [u[..i]] + Split(t, WebhooksMarker);
    FirstPieceIsSegment(t);
  }

  /** The last piece of `u.split("/")` is the text after the last "/" of `u`. */
  lemma LastSegment(u: string)
    ensures var t := Last(Split(u, "/"));
      '/' !in t && |t| <= |u| && u[|u| - |t|..] == t &&
      (|t| == |u| || u[|u| - |t| - 1] == '/')
  {
    var pieces := Split(u, "/");
    var t := Last(pieces);
    SplitLast(u, "/");
    assert FollowsLastSep(u, "/", t);
    SplitPiecesFree(u, "/");
    assert Free(pieces[|pieces| - 1], "/");
    FreeOfChar(t, '/');
    if |t| != |u| {
      var k := |u| - |t| - 1;
      assert OccursAt(u, "/", k);
      assert u[k..k + 1] == "/";
      assert u[k] == u[k..k + 1][0];
    }
  }

  /** `Webhook.token`: `None` for a missing or empty URL, otherwise `url.split("/")[-1]`. */
  function WebhookToken(url: Option<string>): (r: Option<string>)
    ensures r.None? <==> !Truthy(url)
    ensures r.Some? ==> '/' !in r.value
    ensures r.Some? ==> var u := url.value;
      |r.value| <= |u| && u[|u| - |r.value|..] == r.value &&
      (|r.value| == |u| || u[|u| - |r.value| - 1] == '/')
  {
    if !Truthy(url) then None
    else
      var u := url.value;
      var t := Last(Split(u, "/"));
      LastSegment(u);
      Some(t)
  }

  /** The URL Discord hands out for a webhook: `<prefix>webhooks/<id>/<token>`. */
  function WebhookUrl(prefix: string, id: nat, token: string): string
  {
    prefix + WebhooksMarker + Render(id) + "/" + token
  }

  /** The digits of an id followed by "/" and a token without "/" contain no "webhooks/". */
  lemma TailHasNoMarker(id: nat, token: string)
    requires '/' !in token
    ensures Free(Render(id) + "/" + token, WebhooksMarker)
  {
    var digits := Render(id);
    DigitsHaveNoMarkerChars(digits);
    var rest := digits + "/" + token;
    forall j: nat
      ensures !OccursAt(rest, WebhooksMarker, j)
    {
      if j + 9 <= |rest| {
        if j + 8 != |digits| {
          if j + 8 < |digits| {
            assert rest[j + 8] == digits[j + 8];
          } else {
            assert rest[j + 8] == token[j + 8 - |digits| - 1];
          }
          assert rest[j..j + 9][8] != '/';
        } else {
          assert rest[j] == digits[j];
          assert rest[j..j + 9][0] != 'w';
        }
      }
    }
  }

  /**
   * Parsing inverts building: a URL made from an id and a token (a prefix
   * without "webhooks/", a token without "/") yields that id and that token.
   */
  lemma WebhookUrlRoundTrip(prefix: string, id: nat, token: string)
    requires Free(prefix, WebhooksMarker) && '/' !in token
    ensures WebhookId(Some(WebhookUrl(prefix, id, token))) == Value(id)
    ensures WebhookToken(Some(WebhookUrl(prefix, id, token))) == Some(token)
  {
    var digits := Render(id);
    DigitsHaveNoMarkerChars(digits);
    var rest := digits + "/" + token;
    var url := WebhookUrl(prefix, id, token);
    assert url == prefix + WebhooksMarker + rest;
    SplitAfterFree(prefix, WebhooksMarker, rest);
    TailHasNoMarker(id, token);
    SplitFree(rest, WebhooksMarker);
    assert Split(url, WebhooksMarker)[1] == rest;
    FreeOfChar(digits, '/');
    SplitAfterFree(digits, "/", token);
    ParseRender(id);
    FreeOfChar(token, '/');
    assert url == (prefix + WebhooksMarker + digits) + ['/'] + token;
    LastPieceAfterChar(prefix + WebhooksMarker + digits, '/', token);
  }

  /** `str(123456)`. */
  lemma RenderExample()
    ensures Render(123456) == "123456"
  {
    assert Render(1) == "1";
    assert Render(12) == Render(1) + "2";
    assert Render(123) == Render(12) + "3";
    assert Render(1234) == Render(123) + "4";
    assert Render(12345) == Render(1234) + "5";
    assert Render(123456) == Render(12345) + "6";
  }

  /** Every webhook URL under Discord's API prefix yields its id and token. */
  lemma ApiUrlRoundTrip(prefix: string, id: nat, token: string)
    requires prefix == "https://discord.com/api/" && '/' !in token
    ensures WebhookId(Some(WebhookUrl(prefix, id, token))) == Value(id)
    ensures WebhookToken(Some(WebhookUrl(prefix, id, token))) == Some(token)
  {
    assert 'w' !in prefix;
    FreeWithoutFirstChar(prefix, WebhooksMarker);
    WebhookUrlRoundTrip(prefix, id, token);
  }

  /** The pieces of the example URL. */
  lemma ExampleUrlPieces(url: string)
    requires url == "https://discord.com/api/webhooks/123456/abcDEF"
    ensures |url| == 46 && url[..24] == "https://discord.com/api/" && url[40..] == "abcDEF"
    ensures url[24..33] == WebhooksMarker && url[33..39] == "123456" && url[39..40] == "/"
  {
    var a, b, c, d, e := "https://discord.com/api/", "webhooks/", "123456", "/", "abcDEF";
    assert url == a + b + c + d + e;
    assert url[24..33] == b;
  }

  /** A string cut into a prefix, the marker, the digits of `id`, "/" and a token is that webhook URL. */
  lemma WebhookUrlFromPieces(u: string, id: nat, a: nat, b: nat)
    requires a + |WebhooksMarker| <= b < |u| && u[a..a + |WebhooksMarker|] == WebhooksMarker
    requires u[a + |WebhooksMarker|..b] == Render(id) && u[b..b + 1] == "/"
    ensures u == WebhookUrl(u[..a], id, u[b + 1..])
  {
    assert u == u[..a] + u[a..a + |WebhooksMarker|] + u[a + |WebhooksMarker|..b] + u[b..b + 1] + u[b + 1..];
  }

  /** A URL in the shape Discord hands out parses to id 123456 and token "abcDEF". */
  lemma WebhookUrlExample(url: string)
    requires url == "https://discord.com/api/webhooks/123456/abcDEF"
    ensures WebhookId(Some(url)) == Value(123456)
    ensures WebhookToken(Some(url)) == Some("abcDEF")
  {
    ExampleUrlPieces(url);
    RenderExample();
    WebhookUrlFromPieces(url, 123456, 24, 39);
    assert '/' !in url[40..];
    ApiUrlRoundTrip(url[..24], 123456, url[40..]);
  }

  /** The arguments of `rest.execute_webhook`; `username or UNDEFINED` drops empty text. */
  datatype WebhookCall = WebhookCall(id: nat, token: string, username: Option<string>, avatarUrl: Option<string>, embed: Draft)

  /** What pressing "Post Webhook" leads to. */
  datatype PostOutcome =
    | Rejected                 // the "supply a valid webhook URL" notice, nothing posted
    | Failed(error: PyError)   // `id` raised inside the callback; miru logs it, nothing posted
    | Execute(call: WebhookCall)

  /** Python's `value or hikari.UNDEFINED` on optional text. */
  function OrUndefined(s: Option<string>): (r: Option<string>)
    ensures r.Some? <==> Truthy(s)
    ensures r.Some? ==> r == s
  {
    if Truthy(s) then s else None
  }

  /**
   * The guard `if not (webhook.id and webhook.token)` and the call behind it.
   * A webhook is posted to exactly when the id is a non-zero number and the
   * token non-empty; a missing URL, an id of 0 and an empty token are all
   * rejected, and an `id` that raises posts nothing either.
   */
  function PostWebhook(webhook: Draft, embed: Draft): (r: PostOutcome)
    requires webhook.Webhook? && embed.Embed?
    ensures r.Execute? <==>
      WebhookId(webhook.url).Value? && WebhookId(webhook.url).value != 0 && Truthy(WebhookToken(webhook.url))
    ensures r.Failed? <==> WebhookId(webhook.url).Raises?
    ensures r.Failed? ==> r.error == WebhookId(webhook.url).error
    ensures r.Execute? ==>
      && r.call.id == WebhookId(webhook.url).value && r.call.id != 0
      && Some(r.call.token) == WebhookToken(webhook.url) && r.call.token != ""
      && r.call.embed == embed
      && r.call.username == OrUndefined(webhook.username)
      && r.call.avatarUrl == OrUndefined(webhook.avatarUrl)
  {
    match WebhookId(webhook.url)
    case Raises(e) => Failed(e)
    case Undefined => Rejected
    case Value(id) =>
      if id == 0 then Rejected
      else
        var token := WebhookToken(webhook.url);
        if !Truthy(token) then Rejected
        else Execute(WebhookCall(id, token.value, OrUndefined(webhook.username), OrUndefined(webhook.avatarUrl), embed))
  }

  /** A fresh webhook draft, a URL without a token, and an id of 0 are all turned away. */
  lemma PostWebhookRejects(prefix: string, embed: Draft, id: nat, token: string)
    requires embed.Embed? && Free(prefix, WebhooksMarker) && '/' !in token
    ensures PostWebhook(Webhook(None, None, None), embed) == Rejected
    ensures PostWebhook(Webhook(Some(""), None, None), embed) == Rejected
    ensures PostWebhook(Webhook(Some(WebhookUrl(prefix, id, "")), None, None), embed) == Rejected
    ensures PostWebhook(Webhook(Some(WebhookUrl(prefix, 0, token)), None, None), embed) == Rejected
  {
    WebhookUrlRoundTrip(prefix, id, "");
    WebhookUrlRoundTrip(prefix, 0, token);
  }

  /**
   * A non-empty URL without "webhooks/" is not answered with the notice:
   * `id` raises `IndexError` inside the callback and nothing is posted.
   */
  lemma PostWebhookWithoutMarker(url: string, embed: Draft, channel: nat)
    requires embed.Embed? && url != "" && Free(url, WebhooksMarker)
    ensures PostWebhook(Webhook(Some(url), None, None), embed) == Failed(IndexError)
    ensures PostActions(PostWebhook(Webhook(Some(url), None, None), embed), channel) == []
  {
  }

  /** A well-formed URL with a non-zero id and a token is posted to, with that id and token. */
  lemma PostWebhookAccepts(prefix: string, id: nat, token: string, username: Option<string>, avatarUrl: Option<string>, embed: Draft)
    requires embed.Embed? && Free(prefix, WebhooksMarker) && '/' !in token
    requires id != 0 && token != ""
    ensures PostWebhook(Webhook(Some(WebhookUrl(prefix, id, token)), username, avatarUrl), embed) ==
      Execute(WebhookCall(id, token, OrUndefined(username), OrUndefined(avatarUrl), embed))
  {
    WebhookUrlRoundTrip(prefix, id, token);
  }

  const NotYourButtons: string := "You can't use these buttons!"
  const InvalidWebhookNotice: string := "Please supply a valid webhook URL!"
  const TimedOutText: string := "Timed out!"

  /** `f"Posted to <#{msg.channel_id}>!"`, for the channel Discord reports the webhook posted into. */
  function PostedText(channel: nat): string
  {
    "Posted to <#" + Render(channel) + ">!"
  }

  /** The message after a successful post: the confirmation, and no buttons. */
  function PostedMessage(channel: nat): Message
  {
    Message(Some(PostedText(channel)), false)
  }

  /** The calls the view makes to Discord, in order. */
  datatype Action =
    | Ephemeral(text: string)                       // `ctx.respond(text, flags=EPHEMERAL)`
    | ShowModal(title: string, items: seq<TextInput>) // `ctx.respond_with_modal(editor)`
    | DeferModal                                     // the submitted modal's `ctx.defer()`
    | PreviewEmbed(embed: Draft)                     // the ephemeral preview of the embed draft
    | ExecuteWebhook(call: WebhookCall)
    | EditMessage(message: Message)                  // `message.edit(...)`, or `ctx.edit_response(...)` on the button's message

  /**
   * What the "Post Webhook" callback sends for each outcome of the guard. On
   * success, `ctx.edit_response(..., components=[])` answers the button press
   * by replacing the view's own message with the confirmation.
   */
  function PostActions(outcome: PostOutcome, channel: nat): (r: seq<Action>)
    ensures outcome.Rejected? ==> r == [Ephemeral(InvalidWebhookNotice)]
    ensures outcome.Failed? ==> r == []
    ensures Posts(r) == (if outcome.Execute? then 1 else 0)
    ensures MessageEdits(r) == (if outcome.Execute? then 1 else 0)
    ensures outcome.Execute? ==> r == [ExecuteWebhook(outcome.call), EditMessage(PostedMessage(channel))]
  {
    match outcome
    case Rejected =>
      LogSingle(Ephemeral(InvalidWebhookNotice));
      [Ephemeral(InvalidWebhookNotice)]
    case Failed(_) =>
      assert MessageEdits([]) == 0 && Posts([]) == 0;
      []
    case Execute(call) =>
      LogSingle(ExecuteWebhook(call));
      LogSingle(EditMessage(PostedMessage(channel)));
      LogAppend([ExecuteWebhook(call)], [EditMessage(PostedMessage(channel))]);
      [ExecuteWebhook(call)] + [EditMessage(PostedMessage(channel))]
  }

  predicate IsEdit(a: Action)
  {
    a.EditMessage?
  }

  predicate IsPost(a: Action)
  {
    a.ExecuteWebhook?
  }

  /** How many entries of the log `p` selects. */
  function CountOf(actions: seq<Action>, p: Action -> bool): nat
    decreases |actions|
  {
    if actions == [] then 0
    else CountOf(actions[..|actions| - 1], p) + (if p(actions[|actions| - 1]) then 1 else 0)
  }

  /** How many times the view's own message was edited. */
  function MessageEdits(actions: seq<Action>): nat
  {
    CountOf(actions, IsEdit)
  }

  /** How many times the webhook was executed. */
  function Posts(actions: seq<Action>): nat
  {
    CountOf(actions, IsPost)
  }

  /** Counts over a log made of two parts are the counts of each part. */
  lemma {:induction false} CountOfAppend(a: seq<Action>, b: seq<Action>, p: Action -> bool)
    ensures CountOf(a + b, p) == CountOf(a, p) + CountOf(b, p)
    decreases |b|
  {
    if b != [] {
      assert (a + b)[..|a + b| - 1] == a + b[..|b| - 1];
      assert (a + b)[|a + b| - 1] == b[|b| - 1];
      CountOfAppend(a, b[..|b| - 1], p);
    } else {
      assert a + b == a;
    }
  }

  /** Both counts over a log made of two parts. */
  lemma LogAppend(a: seq<Action>, b: seq<Action>)
    ensures MessageEdits(a + b) == MessageEdits(a) + MessageEdits(b)
    ensures Posts(a + b) == Posts(a) + Posts(b)
  {
    CountOfAppend(a, b, IsEdit);
    CountOfAppend(a, b, IsPost);
  }

  /** A one-entry log counts its entry if it is selected. */
  lemma CountOfSingle(x: Action, p: Action -> bool)
    ensures CountOf([x], p) == if p(x) then 1 else 0
  {
    assert [x][..0] == [];
    assert CountOf([], p) == 0;
  }

  /** Both counts over a one-entry log. */
  lemma LogSingle(x: Action)
    ensures MessageEdits([x]) == (if x.EditMessage? then 1 else 0)
    ensures Posts([x]) == (if x.ExecuteWebhook? then 1 else 0)
  {
    CountOfSingle(x, IsEdit);
    CountOfSingle(x, IsPost);
    assert IsEdit(x) == x.EditMessage? && IsPost(x) == x.ExecuteWebhook?;
  }

  /** The four buttons; the editor buttons carry how the modal they open ends. */
  datatype Button =
    | EditEmbedButton(modal: ModalOutcome)
    | EditWebhookButton(modal: ModalOutcome)
    | PreviewEmbedButton
    | PostWebhookButton

  /** The log entries an editor button adds: the modal, and the modal's acknowledgement if it was submitted. */
  function EditorActions(d: Draft, modal: ModalOutcome): (r: seq<Action>)
    ensures MessageEdits(r) == 0 && Posts(r) == 0
    ensures |r| == (if modal.Submitted? then 2 else 1)
    ensures r[0] == ShowModal(EditorTitle(d), Editor(d))
    ensures r[1..] == if modal.Submitted? then [DeferModal] else []
  {
    var r := [ShowModal(EditorTitle(d), Editor(d))] + (if modal.Submitted? then [DeferModal] else []);
    LogSingle(ShowModal(EditorTitle(d), Editor(d)));
    LogSingle(DeferModal);
    LogAppend([ShowModal(EditorTitle(d), Editor(d))], if modal.Submitted? then [DeferModal] else []);
    assert MessageEdits([]) == 0 && Posts([]) == 0;
    r
  }

  /**
   * How the phase, the view's message and the log of a `MainView` fit
   * together: the message keeps its buttons until the webhook is posted to
   * or the view times out; with the buttons gone no further press can
   * arrive, so the webhook is posted to at most once; the message is edited
   * once per post and once by the timeout, and never otherwise.
   */
  ghost predicate SessionConsistent(phase: Phase, message: Message, actions: seq<Action>)
  {
    && Posts(actions) <= 1
    && MessageEdits(actions) == Posts(actions) + (if phase.Stopped? then 1 else 0)
    && (message.hasComponents <==> phase.Active? && Posts(actions) == 0)
    && (message.hasComponents ==> message == Message(None, true))
    && (phase.Stopped? ==> phase == Stopped(TimedOut) && message == Message(Some(TimedOutText), false))
    && (phase.Active? && Posts(actions) == 1 ==> exists channel :: message == PostedMessage(channel))
  }

  /** Log entries that neither post nor edit keep a session consistent. */
  lemma QuietEntriesKeepSession(phase: Phase, message: Message, actions: seq<Action>, added: seq<Action>)
    requires SessionConsistent(phase, message, actions)
    requires MessageEdits(added) == 0 && Posts(added) == 0
    ensures SessionConsistent(phase, message, actions + added)
  {
    LogAppend(actions, added);
  }

  /** `MainView`: the drafts one user is composing, for 240 seconds after the last press. */
  class MainView {
    const author: UserId
    var embed: Draft
    var webhook: Draft
    var phase: Phase
    var message: Message
    var actions: seq<Action>

    /**
     * The embed slot holds an embed and the webhook slot a webhook. The
     * message keeps its buttons until the webhook is posted to or the view
     * times out; with the buttons gone no further press can arrive, so the
     * webhook is posted to at most once. The view's message is edited once
     * per post and once by the timeout, and never otherwise.
     */
    ghost predicate Valid()
      reads this
    {
      && embed.Embed? && webhook.Webhook?
      && SessionConsistent(phase, message, actions)
    }

    /** The view for `author`, attached to the freshly posted message that shows its buttons. */
    constructor (author: UserId)
      ensures Valid()
      ensures this.author == author
      ensures embed == Embed(None, None, None) && webhook == Webhook(None, None, None)
      ensures phase == Active && message == Message(None, true) && actions == []
    {
      this.author := author;
      embed := Embed(None, None, None);
      webhook := Webhook(None, None, None);
      phase := Active;
      message := Message(None, true);
      actions := [];
    }

    /** `view_check`: only the author may press; anyone else gets a private notice. */
    method ViewCheck(user: UserId) returns (ok: bool)
      modifies this`actions
      ensures ok <==> user == author
      ensures actions == old(actions) + (if ok then [] else [Ephemeral(NotYourButtons)])
    {
      ok := true;
      if user != author {
        actions := actions + [Ephemeral(NotYourButtons)];
        ok := false;
      }
    }

    /** The `setattr` loop over the modal's children, writing into the embed draft or the webhook draft. */
    method SetAttributes(toEmbed: bool, children: seq<TextInput>)
      modifies this`embed, this`webhook
      ensures toEmbed ==> embed == ApplyForm(old(embed), children) && webhook == old(webhook)
      ensures !toEmbed ==> webhook == ApplyForm(old(webhook), children) && embed == old(embed)
    {
      for i := 0 to |children|
        invariant toEmbed ==> embed == ApplyForm(old(embed), children[..i]) && webhook == old(webhook)
        invariant !toEmbed ==> webhook == ApplyForm(old(webhook), children[..i]) && embed == old(embed)
      {
        var item := children[i];
        assert children[..i + 1][..i] == children[..i];
        if toEmbed {
          embed := embed.With(item.customId, item.value);
        } else {
          webhook := webhook.With(item.customId, item.value);
        }
      }
      assert children[..|children|] == children;
    }

    /** "Edit Embed": open the embed editor, wait for it, write its fields back. */
    method EditEmbed(modal: ModalOutcome)
      requires Valid()
      modifies this`embed, this`webhook, this`actions
      ensures Valid()
      ensures embed == ApplyForm(old(embed), Resolve(Editor(old(embed)), modal))
      ensures webhook == old(webhook)
      ensures actions == old(actions) + EditorActions(old(embed), modal)
    {
      var editor := Editor(embed);
      var added := EditorActions(embed, modal);
      QuietEntriesKeepSession(phase, message, actions, added);
      actions := actions + added;
      SetAttributes(true, Resolve(editor, modal));
    }

    /** "Edit Webhook": open the webhook editor, wait for it, write its fields back. */
    method EditWebhook(modal: ModalOutcome)
      requires Valid()
      modifies this`embed, this`webhook, this`actions
      ensures Valid()
      ensures webhook == ApplyForm(old(webhook), Resolve(Editor(old(webhook)), modal))
      ensures embed == old(embed)
      ensures actions == old(actions) + EditorActions(old(webhook), modal)
    {
      var editor := Editor(webhook);
      var added := EditorActions(webhook, modal);
      QuietEntriesKeepSession(phase, message, actions, added);
      actions := actions + added;
      SetAttributes(false, Resolve(editor, modal));
    }

    /**
     * "Post Webhook": post the embed through the webhook and replace the
     * message with the confirmation for `channel`, or explain why not. The
     * drafts never change.
     */
    method PostWebhookPressed(channel: nat)
      requires Valid() && message.hasComponents
      modifies this`actions, this`message
      ensures Valid()
      ensures actions == old(actions) + PostActions(PostWebhook(webhook, embed), channel)
      ensures message == if PostWebhook(webhook, embed).Execute? then PostedMessage(channel) else old(message)
    {
      var outcome := PostWebhook(webhook, embed);
      var added := PostActions(outcome, channel);
      LogAppend(actions, added);
      actions := actions + added;
      if outcome.Execute? {
        message := PostedMessage(channel);
      }
    }

    /**
     * A button press: ignored once the view has stopped or its message has
     * lost its buttons, refused with a private notice for anyone but the
     * author, otherwise handed to the button's callback. `channel` is where
     * Discord reports a webhook post landed.
     */
    method Activate(user: UserId, button: Button, channel: nat)
      requires Valid()
      modifies this
      ensures Valid()
      ensures phase == old(phase)
      ensures old(phase).Stopped? || !old(message).hasComponents ==>
        embed == old(embed) && webhook == old(webhook) && actions == old(actions) && message == old(message)
      ensures old(message).hasComponents && user != author ==>
        && embed == old(embed) && webhook == old(webhook) && message == old(message)
        && actions == old(actions) + [Ephemeral(NotYourButtons)]
      ensures old(message).hasComponents && user == author ==>
        match button
        case EditEmbedButton(modal) =>
          && embed == ApplyForm(old(embed), Resolve(Editor(old(embed)), modal)) && webhook == old(webhook)
          && actions == old(actions) + EditorActions(old(embed), modal) && message == old(message)
        case EditWebhookButton(modal) =>
          && webhook == ApplyForm(old(webhook), Resolve(Editor(old(webhook)), modal)) && embed == old(embed)
          && actions == old(actions) + EditorActions(old(webhook), modal) && message == old(message)
        case PreviewEmbedButton =>
          && embed == old(embed) && webhook == old(webhook) && message == old(message)
          && actions == old(actions) + [PreviewEmbed(embed)]
        case PostWebhookButton =>
          && embed == old(embed) && webhook == old(webhook)
          && actions == old(actions) + PostActions(PostWebhook(webhook, embed), channel)
          && message == if PostWebhook(webhook, embed).Execute? then PostedMessage(channel) else old(message)
    {
      if phase.Stopped? || !message.hasComponents {
        return;
      }
      var before := actions;
      var ok := ViewCheck(user);
      if !ok {
        LogSingle(Ephemeral(NotYourButtons));
        QuietEntriesKeepSession(phase, message, before, [Ephemeral(NotYourButtons)]);
        return;
      }
      assert before + [] == before;
      match button
      case EditEmbedButton(modal) =>
        EditEmbed(modal);
      case EditWebhookButton(modal) =>
        EditWebhook(modal);
      case PreviewEmbedButton =>
        LogSingle(PreviewEmbed(embed));
        QuietEntriesKeepSession(phase, message, actions, [PreviewEmbed(embed)]);
        actions := actions + [PreviewEmbed(embed)];
      case PostWebhookButton =>
        PostWebhookPressed(channel);
    }

    /**
     * `on_timeout`: the message becomes "Timed out!" without buttons, and the
     * view stops for good. This is the message's second edit when the webhook
     * was posted to, and its only edit otherwise.
     */
    method Timeout()
      requires Valid() && phase.Active?
      modifies this`phase, this`message, this`actions
      ensures Valid()
      ensures phase == Stopped(TimedOut)
      ensures message == Message(Some(TimedOutText), false)
      ensures actions == old(actions) + [EditMessage(message)]
      ensures MessageEdits(actions) == Posts(actions) + 1 <= 2
    {
      phase := Stopped(TimedOut);
      message := Message(Some(TimedOutText), false);
      assert [EditMessage(message)][..0] == [];
      LogAppend(actions, [EditMessage(message)]);
      actions := actions + [EditMessage(message)];
    }
  }

  const Trigger: string := "miru"

  /** The `on_message` listener: a view for the author of a message that reads exactly "miru", and nothing otherwise. */
  method OnMessage(e: MessageEvent) returns (view: MainView?)
    ensures view != null <==> e.isHuman && e.content == Some(Trigger)
    ensures view != null ==> fresh(view) && view.Valid() && view.author == e.author
    ensures view != null ==> view.embed == Embed(None, None, None) && view.webhook == Webhook(None, None, None)
    ensures view != null ==> view.phase == Active && view.actions == []
  {
    if !IsTrigger(e, Trigger) {
      return null;
    }
    view := new MainView(e.author);
  }
}
