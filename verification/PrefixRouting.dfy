/**
 Prefix-cache affinity: the routing key is the first characters of the conversation's text, looked
 up on the hash ring; requests without text go to the candidate with the fewest connections.
 */
module PrefixRouting {
  import opened Options
  import opened HashRing
  import opened Peers

  datatype Json =
    | Null
    | Bool(b: bool)
    | Number(n: real)
    | Str(s: string)
    | Arr(items: seq<Json>)
    | Obj(fields: map<string, Json>)

  /** Field access; anything but an object has no fields. */
  function Get(j: Json, key: string): Option<Json> {
    if j.Obj? && key in j.fields then Some(j.fields[key]) else None
  }

  function Join(texts: seq<string>): string {
    if texts == [] then ""
    else if |texts| == 1 then texts[0]
    else Join(texts[..|texts| - 1]) + " " + texts[|texts| - 1]
  }

  /** The `text` strings of a content-part array; other parts are skipped. */
  function PartTexts(parts: seq<Json>): seq<string> {
    if parts == [] then []
    else
      var t := Get(parts[|parts| - 1], "text");
      PartTexts(parts[..|parts| - 1]) + if t.Some? && t.value.Str? then [t.value.s] else []
  }

  /** A string, or the text parts of a part array joined by spaces; nothing when there is no text. */
  function ContentText(content: Json): Option<string> {
    if content.Str? then Some(content.s)
    else if content.Arr? && PartTexts(content.items) != [] then Some(Join(PartTexts(content.items)))
    else None
  }

  function MessageText(m: Json): Option<string> {
    var content := Get(m, "content");
    if content.Some? then ContentText(content.value) else None
  }

  function Texts(messages: seq<Json>): seq<string> {
    if messages == [] then []
    else
      var t := MessageText(messages[|messages| - 1]);
      Texts(messages[..|messages| - 1]) + if t.Some? then [t.value] else []
  }

  function Take(s: string, limit: nat): string {
    if |s| <= limit then s else s[..limit]
  }

  function ExtractPrefix(limit: nat, body: Option<Json>): string {
    if body.None? then ""
    else
      var messages, prompt := Get(body.value, "messages"), Get(body.value, "prompt");
      if messages.Some? && messages.value.Arr? then Take(Join(Texts(messages.value.items)), limit)
      else if prompt.Some? && prompt.value.Str? then Take(prompt.value.s, limit)
      else ""
  }

  function Ids(ps: seq<Peer>): set<nat> {
    set i | 0 <= i < |ps| :: ps[i].id
  }

  function Select(ring: seq<Point>, hashKey: string -> Hash64, limit: nat, body: Option<Json>, ps: seq<Peer>)
    : Option<nat>
  {
    if ps == [] then None
    else
      var prefix := ExtractPrefix(limit, body);
      if prefix == "" then Some(ps[FirstLeast(ps, ActiveOf)].id)
      else LookupSpec(ring, hashKey(prefix), Ids(ps))
  }

  /** Parts contribute in order, each its own text or nothing. */
  lemma {:induction false} PartTextsAppend(a: seq<Json>, b: seq<Json>)
    ensures PartTexts(a + b) == PartTexts(a) + PartTexts(b)
  {
    if b == [] {
      assert a + b == a;
    } else {
      PartTextsAppend(a, b[..|b| - 1]);
      assert (a + b)[..|a + b| - 1] == a + b[..|b| - 1];
    }
  }

  /** The part has a `text` field that is a string. */
  predicate HasText(part: Json) {
    Get(part, "text").Some? && Get(part, "text").value.Str?
  }

  /** A part without text, wherever it stands, does not count. */
  lemma OtherPartsDoNotCount(a: seq<Json>, part: Json, b: seq<Json>)
    requires !HasText(part)
    ensures PartTexts(a + [part] + b) == PartTexts(a + b)
  {
    PartTextsAppend(a + [part], b);
    PartTextsAppend(a, [part]);
    PartTextsAppend(a, b);
    assert [part][..0] == [];
  }

  /** A message with the given content and any other fields. */
  function Message(other: map<string, Json>, content: Json): Json {
    Obj(other["content" := content])
  }

  /** A message whose content is a part array reads like one whose content is the parts' texts joined
      by spaces, and a part without text may be taken out of it; with no text parts at all it reads
      as nothing. */
  lemma PartsReadAsText(other: map<string, Json>, a: seq<Json>, part: Json, b: seq<Json>)
    ensures PartTexts(a) != [] ==>
            MessageText(Message(other, Arr(a))) == MessageText(Message(other, Str(Join(PartTexts(a)))))
    ensures !HasText(part) ==>
            MessageText(Message(other, Arr(a + [part] + b))) == MessageText(Message(other, Arr(a + b)))
    ensures MessageText(Message(other, Arr(a))).None? <==> forall i :: 0 <= i < |a| ==> !HasText(a[i])
  {
    if !HasText(part) {
      OtherPartsDoNotCount(a, part, b);
    }
    NoTextParts(a);
  }

  lemma {:induction false} NoTextParts(parts: seq<Json>)
    ensures PartTexts(parts) == [] <==> forall i :: 0 <= i < |parts| ==> !HasText(parts[i])
  {
    if parts == [] {
    } else {
      var init, last := parts[..|parts| - 1], parts[|parts| - 1];
      NoTextParts(init);
      assert forall i :: 0 <= i < |init| ==> parts[i] == init[i];
      assert PartTexts(parts) == [] <==> PartTexts(init) == [] && !HasText(last);
    }
  }

  /** A part with a `text` string contributes that string, wherever it stands. */
  lemma TextPartCounts(a: seq<Json>, fields: map<string, Json>, text: string, b: seq<Json>)
    ensures PartTexts(a + [Obj(fields["text" := Str(text)])] + b) == PartTexts(a) + [text] + PartTexts(b)
  {
    var part := Obj(fields["text" := Str(text)]);
    PartTextsAppend(a + [part], b);
    PartTextsAppend(a, [part]);
    assert [part][..0] == [];
    assert PartTexts([part]) == [text];
  }

  /** A message whose content is a plain string contributes that string, wherever it stands. */
  lemma PlainMessageCounts(a: seq<Json>, other: map<string, Json>, text: string, b: seq<Json>)
    ensures Texts(a + [Message(other, Str(text))] + b) == Texts(a) + [text] + Texts(b)
  {
    var m := Message(other, Str(text));
    TextsAppend(a + [m], b);
    TextsAppend(a, [m]);
    OneText(m);
  }

  /** A message without text contributes nothing. */
  lemma SilentMessageDoesNotCount(a: seq<Json>, m: Json, b: seq<Json>)
    requires MessageText(m).None?
    ensures Texts(a + [m] + b) == Texts(a + b)
  {
    TextsAppend(a + [m], b);
    TextsAppend(a, [m]);
    TextsAppend(a, b);
    OneText(m);
  }

  lemma OneText(m: Json)
    ensures Texts([m]) == if MessageText(m).Some? then [MessageText(m).value] else []
  {
    assert [m][..0] == [];
  }

  /** The first characters of a text, as many as the limit allows. */
  predicate IsFirstPart(key: string, text: string, limit: nat) {
    key <= text && |key| == if |text| < limit then |text| else limit
  }

  /** The key is the first part of the joined messages if there is a message array, else of the prompt if
      that is a string, else empty. */
  lemma KeyIsFirstPart(limit: nat, fields: map<string, Json>)
    ensures "messages" in fields && fields["messages"].Arr? ==>
            IsFirstPart(ExtractPrefix(limit, Some(Obj(fields))), Join(Texts(fields["messages"].items)), limit)
    ensures ("messages" !in fields || !fields["messages"].Arr?) && "prompt" in fields && fields["prompt"].Str? ==>
            IsFirstPart(ExtractPrefix(limit, Some(Obj(fields))), fields["prompt"].s, limit)
    ensures ("messages" !in fields || !fields["messages"].Arr?) && ("prompt" !in fields || !fields["prompt"].Str?) ==>
            ExtractPrefix(limit, Some(Obj(fields))) == ""
    ensures ExtractPrefix(limit, None) == ""
  {
  }

  /** With a key the answer is the candidate whose point on the ring is nearest the hash of the key; without
      one it is the first candidate with the fewest connections. */
  lemma SelectIff(ring: seq<Point>, hashKey: string -> Hash64, limit: nat, body: Option<Json>, ps: seq<Peer>,
                  id: nat)
    requires Sorted(ring)
    ensures var key := ExtractPrefix(limit, body);
            key != "" ==> (Select(ring, hashKey, limit, body, ps) == Some(id) <==>
                             IsNearest(ring, hashKey(key), Ids(ps), id))
    ensures ExtractPrefix(limit, body) == "" && ps != [] ==>
            exists i :: 0 <= i < |ps| && Select(ring, hashKey, limit, body, ps) == Some(ps[i].id)
                        && (forall j :: 0 <= j < |ps| ==> ps[i].active <= ps[j].active)
                        && (forall j :: 0 <= j < i ==> ps[i].active < ps[j].active)
    ensures id in Ids(ps) <==> exists i :: 0 <= i < |ps| && ps[i].id == id
  {
    var key := ExtractPrefix(limit, body);
    if key != "" {
      LookupIff(ring, hashKey(key), Ids(ps), id);
      if ps == [] {
        assert id !in Ids(ps);
      }
    } else if ps != [] {
      var i := FirstLeast(ps, ActiveOf);
      assert Select(ring, hashKey, limit, body, ps) == Some(ps[i].id);
      forall j | 0 <= j < |ps| ensures ps[i].active <= ps[j].active && (j < i ==> ps[i].active < ps[j].active) {
        assert ActiveOf(ps[i]) <= ActiveOf(ps[j]);
      }
    }
  }

  // ------------------------------------------------------ conversation locality

  /** A chat request with these messages and any other fields. */
  function Chat(other: map<string, Json>, messages: seq<Json>): Option<Json> {
    Some(Obj(other["messages" := Arr(messages)]))
  }

  lemma {:induction false} TextsAppend(a: seq<Json>, b: seq<Json>)
    ensures Texts(a + b) == Texts(a) + Texts(b)
  {
    if b == [] {
      assert a + b == a;
    } else {
      TextsAppend(a, b[..|b| - 1]);
      assert (a + b)[..|a + b| - 1] == a + b[..|b| - 1];
    }
  }

  /** Joining more texts onto a non-empty list adds a space and then the rest. */
  lemma {:induction false} JoinAppend(a: seq<string>, b: seq<string>)
    requires a != [] && b != []
    ensures Join(a + b) == Join(a) + " " + Join(b)
  {
    var last := b[|b| - 1];
    assert (a + b)[..|a + b| - 1] == a + b[..|b| - 1];
    if |b| == 1 {
      assert a + b[..0] == a;
    } else {
      JoinAppend(a, b[..|b| - 1]);
    }
  }

  lemma ChatPrefix(limit: nat, other: map<string, Json>, messages: seq<Json>)
    ensures ExtractPrefix(limit, Chat(other, messages)) == Take(Join(Texts(messages)), limit)
  {
  }

  /** Text added after a space is cut off exactly when the limit was already reached. */
  lemma TakeExtended(a: string, b: string, limit: nat)
    ensures Take(a + " " + b, limit) == Take(a, limit) <==> limit <= |a|
  {
  }

  /** A conversation with some text keeps its key under further text if and only if the limit had
      been reached. */
  lemma KeyIsKeptIff(limit: nat, other: map<string, Json>, said: seq<Json>, more: seq<Json>)
    requires Texts(said) != [] && Texts(more) != []
    ensures ExtractPrefix(limit, Chat(other, said + more)) == ExtractPrefix(limit, Chat(other, said))
            <==> limit <= |Join(Texts(said))|
  {
    ChatPrefix(limit, other, said);
    ChatPrefix(limit, other, said + more);
    TextsAppend(said, more);
    JoinAppend(Texts(said), Texts(more));
    TakeExtended(Join(Texts(said)), Join(Texts(more)), limit);
  }

  /** Once a conversation's text has reached the limit, further messages of any shape keep its key. */
  lemma LongConversationKeepsItsKey(limit: nat, other: map<string, Json>, said: seq<Json>, more: seq<Json>)
    requires 0 < limit <= |Join(Texts(said))|
    ensures ExtractPrefix(limit, Chat(other, said + more)) == ExtractPrefix(limit, Chat(other, said)) != ""
  {
    ChatPrefix(limit, other, said);
    ChatPrefix(limit, other, said + more);
    if Texts(more) == [] {
      TextsAppend(said, more);
      assert Texts(said) + [] == Texts(said);
    } else {
      KeyIsKeptIff(limit, other, said, more);
    }
  }

  /** So the conversation stays on its backend: for the same candidates, and for any fewer that still
      include it. */
  lemma ConversationStaysPut(ring: seq<Point>, hashKey: string -> Hash64, limit: nat, other: map<string, Json>,
                             said: seq<Json>, more: seq<Json>,
                             ps: seq<Peer>, ps': seq<Peer>, id: nat)
    requires Sorted(ring) && 0 < limit <= |Join(Texts(said))|
    requires Select(ring, hashKey, limit, Chat(other, said), ps) == Some(id)
    requires Ids(ps') <= Ids(ps) && id in Ids(ps')
    ensures Select(ring, hashKey, limit, Chat(other, said + more), ps') == Some(id)
  {
    LongConversationKeepsItsKey(limit, other, said, more);
    var key := hashKey(ExtractPrefix(limit, Chat(other, said)));
    SurvivorsKeepTheirKeys(ring, key, Ids(ps), Ids(ps'), id);
  }

  // -------------------------------------------------- the answer is a candidate

  /** On a ring with at least one point per backend the strategy always answers, with a candidate. */
  lemma SelectsACandidate(ring: seq<Point>, hashKey: string -> Hash64, limit: nat, body: Option<Json>,
                          ps: seq<Peer>, backends: nat, vnodes: nat)
    requires IsRing(ring, hashKey, backends, vnodes) && vnodes >= 1
    requires ps != [] && forall i :: 0 <= i < |ps| ==> ps[i].id < backends
    ensures var r := Select(ring, hashKey, limit, body, ps);
            r.Some? && exists i :: 0 <= i < |ps| && ps[i].id == r.value
  {
    var prefix := ExtractPrefix(limit, body);
    if prefix != "" {
      var key := hashKey(prefix);
      assert Point(hashKey("backend-" + (Decimal(ps[0].id) + "-vnode-" + Decimal(0))), ps[0].id) in ring;
      assert ps[0].id in Ids(ps);
      LookupIsNearest(ring, key, Ids(ps));
      var id := LookupSpec(ring, key, Ids(ps)).value;
      assert id in Ids(ps);
    }
  }
}
