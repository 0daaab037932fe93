/**
  The JSON body generateEmailReply builds around the prompt:
  {"contents": [{"parts": [{"text": prompt}]}]}.
  `Map.of` becomes a JSON object, `new Object[] {...}` a JSON array.
 */
module RequestBody {

  import opened Wrappers

  datatype Json =
    | JString(str: string)
    | JArray(items: seq<Json>)
    | JObject(members: map<string, Json>)

  /** One step of a path into a JSON value: a member name or an array position. */
  datatype Step = Member(name: string) | Index(i: nat)

  /** The value found by following `path` from `j`, or `None` when some step does not exist. */
  function Lookup(j: Json, path: seq<Step>): Option<Json>
    decreases |path|
  {
    if path == [] then Some(j)
    else match path[0]
      case Member(k) =>
        if j.JObject? && k in j.members then Lookup(j.members[k], path[1..]) else None
      case Index(i) =>
        if j.JArray? && i < |j.items| then Lookup(j.items[i], path[1..]) else None
  }

  /** contents[0].parts[0].text */
  const TextPath: seq<Step> := [Member("contents"), Index(0), Member("parts"), Index(0), Member("text")]

  /** The text at contents[0].parts[0].text, when the body has one. */
  function TextOf(body: Json): Option<string> {
    match Lookup(body, TextPath)
    case Some(JString(s)) => Some(s)
    case _ => None
  }

  function Body(prompt: string): (body: Json)
    ensures TextOf(body) == Some(prompt)
  {
    JObject(map["contents" := JArray([JObject(map["parts" := JArray([JObject(map["text" := JString(prompt)])])])])])
  }

  /**
    The body has one member, "contents", an array of exactly one object whose only
    member, "parts", is an array of exactly one object whose only member is "text".
   */
  lemma BodyShape(prompt: string)
    ensures var body := Body(prompt);
      && body.JObject? && body.members.Keys == {"contents"}
      && var contents := body.members["contents"];
      && contents.JArray? && |contents.items| == 1
      && contents.items[0].JObject? && contents.items[0].members.Keys == {"parts"}
      && var parts := contents.items[0].members["parts"];
      && parts.JArray? && |parts.items| == 1
      && parts.items[0].JObject? && parts.items[0].members.Keys == {"text"}
      && parts.items[0].members["text"] == JString(prompt)
  {
  }

  /** Different prompts give different bodies: the body loses nothing of the prompt. */
  lemma BodyInjective(p1: string, p2: string)
    ensures Body(p1) == Body(p2) <==> p1 == p2
  {
    if Body(p1) == Body(p2) {
      assert TextOf(Body(p1)) == Some(p1) && TextOf(Body(p2)) == Some(p2);
    }
  }
}
