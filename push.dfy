/** The push handler: how an inbound push message becomes the notification
    it displays. The handler starts from a fixed descriptor, spreads a
    parsed JSON payload over it, falls back to the raw text as the body when
    parsing fails, and attaches `url || './'` as the click target. */
module PushResolver {
  import opened JsonValues
  import Text

  /** The handler's `data` object: property name to value. */
  type Descriptor = map<string, Json>

  const DefaultTitle: string := "\U{1F31F} Cub Stars"
  const DefaultBody: string := "New activity from your kids!"
  const DefaultIcon: string :=
    "data:image/svg+xml,<svg xmlns=\"http://www.w3.org/2000/svg\" viewBox=\"0 0 100 100\"><text y=\".9em\" font-size=\"90\">\U{2B50}</text></svg>"
  const DefaultBadge: string :=
    "data:image/svg+xml,<svg xmlns=\"http://www.w3.org/2000/svg\" viewBox=\"0 0 100 100\"><text y=\".9em\" font-size=\"90\">\U{1F514}</text></svg>"
  const DefaultTag: string := "cubstars-notification"
  /** The click target used when the payload names no (truthy) `url`. */
  const DefaultClickTarget: string := "./"

  /** One `{ action, title }` button of a notification. */
  function ActionEntry(action: string, title: string): Json
  {
    JObj(map["action" := JStr(action), "title" := JStr(title)])
  }

  const DefaultActions: seq<Json> :=
    [ActionEntry("open", "\U{1F4F1} Open App"), ActionEntry("dismiss", "\U{2716} Dismiss")]

  /** The descriptor every push starts from. */
  const Defaults: Descriptor := map[
    "title" := JStr(DefaultTitle),
    "body" := JStr(DefaultBody),
    "icon" := JStr(DefaultIcon),
    "badge" := JStr(DefaultBadge),
    "tag" := JStr(DefaultTag),
    "requireInteraction" := JBool(true),
    "actions" := JArr(DefaultActions)
  ]

  /** What `event.data` holds: nothing, a body that `json()` parses, or a
      body on which `json()` throws (then `text()` is the raw body). */
  datatype PushData = NoData | Parsed(value: Json) | Unparsable(text: string)

  lemma NatToStringInjectiveAll()
    ensures forall m: nat, n: nat :: Text.NatToString(m) == Text.NatToString(n) ==> m == n
  {
    forall m: nat, n: nat | Text.NatToString(m) == Text.NatToString(n) ensures m == n {
      Text.NatToStringInjective(m, n);
    }
  }

  /** The properties object spread copies out of an array-like value: its
      elements under the keys "0", "1", ... */
  function IndexKeyed(items: seq<Json>): (m: map<string, Json>)
    ensures forall k :: k in m ==> Text.AllDigits(k)
    ensures forall i :: 0 <= i < |items| ==> Text.NatToString(i) in m && m[Text.NatToString(i)] == items[i]
    ensures forall k :: k in m ==> exists i :: 0 <= i < |items| && k == Text.NatToString(i)
  {
    NatToStringInjectiveAll();
    map i | 0 <= i < |items| :: Text.NatToString(i) := items[i]
  }

  /** The own enumerable properties that `{ ...v }` copies out of a parsed
      JSON value: an object's fields, an array's or a string's elements by
      index, and nothing from `null`, a boolean or a number. */
  function Spread(v: Json): (m: map<string, Json>)
    ensures !v.JObj? ==> forall k :: k in m ==> Text.AllDigits(k)
  {
    match v
    case JObj(fields) => fields
    case JArr(items) => IndexKeyed(items)
    case JStr(s) => IndexKeyed(seq(|s|, i requires 0 <= i < |s| => JStr([s[i]])))
    case _ => map[]
  }

  /** The handler's `data` after the payload has been applied. */
  function Resolve(p: PushData): (d: Descriptor)
    ensures Defaults.Keys <= d.Keys
  {
    match p
    case NoData => Defaults
    case Parsed(v) => Defaults + Spread(v)
    case Unparsable(t) => Defaults["body" := JStr(t)]
  }

  /** `data.url || './'`: the value attached to the notification as its
      click target. */
  function ClickData(d: Descriptor): (r: Json)
    ensures Truthy(r)
    ensures "url" in d && Truthy(d["url"]) ==> r == d["url"]
    ensures !("url" in d && Truthy(d["url"])) ==> r == JStr(DefaultClickTarget)
  {
    if "url" in d && Truthy(d["url"]) then d["url"] else JStr(DefaultClickTarget)
  }

  /** The arguments of the `showNotification` call the handler makes. */
  datatype ShowRequest = ShowRequest(
    title: Json, body: Json, icon: Json, badge: Json, tag: Json,
    requireInteraction: Json, actions: Json, data: Json)

  function Show(d: Descriptor): (r: ShowRequest)
    requires Defaults.Keys <= d.Keys
    ensures Truthy(r.data)
    ensures r.title == d["title"] && r.body == d["body"] && r.tag == d["tag"]
  {
    ShowRequest(d["title"], d["body"], d["icon"], d["badge"], d["tag"],
                d["requireInteraction"], d["actions"], ClickData(d))
  }

  /** The notification the push handler displays for a message. */
  function PushNotification(p: PushData): (r: ShowRequest)
    ensures Truthy(r.data)
    ensures p.Unparsable? ==> r.body == JStr(p.text)
    ensures p.NoData? ==> r.title == JStr(DefaultTitle) && r.tag == JStr(DefaultTag)
  {
    Show(Resolve(p))
  }

  /** The request for a push without data, written out field by field. */
  const DefaultRequest: ShowRequest := ShowRequest(
    JStr(DefaultTitle), JStr(DefaultBody), JStr(DefaultIcon), JStr(DefaultBadge),
    JStr("cubstars-notification"), JBool(true),
    JArr([ActionEntry("open", "\U{1F4F1} Open App"), ActionEntry("dismiss", "\U{2716} Dismiss")]),
    JStr("./"))

  /** A push without data shows the fixed default notification, with the
      two buttons open and dismiss in that order. */
  lemma NoDataShowsDefaults()
    ensures PushNotification(NoData) == DefaultRequest
  {
  }

  /** A JSON object payload is a shallow merge: every property it has
      replaces the default, every default it lacks is kept. */
  lemma ObjectPayloadMerges(m: map<string, Json>)
    ensures var d := Resolve(Parsed(JObj(m)));
      && d.Keys == Defaults.Keys + m.Keys
      && (forall k :: k in m ==> d[k] == m[k])
      && (forall k :: k in Defaults && k !in m ==> d[k] == Defaults[k])
  {
  }

  /** A body that is not JSON changes only `body`, which becomes the raw text. */
  lemma UnparsableChangesOnlyBody(t: string)
    ensures var d := Resolve(Unparsable(t));
      && d.Keys == Defaults.Keys
      && d["body"] == JStr(t)
      && (forall k :: k in Defaults && k != "body" ==> d[k] == Defaults[k])
    ensures PushNotification(Unparsable(t)) == DefaultRequest.(body := JStr(t))
  {
  }

  /** A payload that parses to something other than an object (an array, a
      string, a number, `true`, `null`) only adds index properties, which no
      displayed field reads: the default notification is shown. */
  lemma NonObjectPayloadShowsDefaults(v: Json)
    requires !v.JObj?
    ensures PushNotification(Parsed(v)) == DefaultRequest
  {
    assert !Text.AllDigits("title") by { assert "title"[0] == 't'; }
    assert !Text.AllDigits("body") by { assert "body"[0] == 'b'; }
    assert !Text.AllDigits("icon") by { assert "icon"[0] == 'i'; }
    assert !Text.AllDigits("badge") by { assert "badge"[0] == 'b'; }
    assert !Text.AllDigits("tag") by { assert "tag"[0] == 't'; }
    assert !Text.AllDigits("requireInteraction") by { assert "requireInteraction"[0] == 'r'; }
    assert !Text.AllDigits("actions") by { assert "actions"[0] == 'a'; }
    assert !Text.AllDigits("url") by { assert "url"[0] == 'u'; }
  }

  /** The click target is the payload's `url` when that is truthy, and
      `'./'` when it is missing, empty or otherwise falsy. */
  lemma ClickTargetFromPayload(m: map<string, Json>)
    ensures "url" in m && Truthy(m["url"]) ==> PushNotification(Parsed(JObj(m))).data == m["url"]
    ensures !("url" in m && Truthy(m["url"])) ==> PushNotification(Parsed(JObj(m))).data == JStr("./")
  {
  }

  /** Defaults fill only missing properties: a payload may still blank a
      displayed field, here the title. */
  lemma PayloadCanBlankTitle()
    ensures PushNotification(Parsed(JObj(map["title" := JStr("")]))).title == JStr("")
  {
  }
}
