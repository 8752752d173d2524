/** The parsed JSON values the websocket handlers in src/main.c inspect.
    Parsing itself belongs to the cJSON library and is not part of this
    model; a message reaches the handlers as the outcome of a parse. */
module Json {
  import opened Types

  /** A cJSON node. A number carries the integer view `valueint` that the
      handlers read. */
  datatype Json =
    | Null
    | False
    | True
    | Number(valueint: int)
    | String(valuestring: string)
    | Array(items: seq<Json>)
    | Object(members: seq<Member>)

  datatype Member = Member(key: string, value: Json)

  /** The outcome of `cJSON_Parse`: a document, or a failure with the text
      that `cJSON_GetErrorPtr` points at, when it points anywhere. */
  datatype ParseResult = Parsed(json: Json) | ParseFailed(errorPtr: Option<string>)

  /** Whether some member of `members` is called `name`. */
  predicate HasKey(members: seq<Member>, name: string) {
    exists i :: 0 <= i < |members| && members[i].key == name
  }

  /** Member `i` is `name: value` and no earlier member is called `name`. */
  ghost predicate MatchAt(members: seq<Member>, name: string, value: Json, i: int) {
    0 <= i < |members| && members[i] == Member(name, value)
    && forall k :: 0 <= k < i ==> members[k].key != name
  }

  ghost predicate FirstMatch(members: seq<Member>, name: string, value: Json) {
    exists i :: MatchAt(members, name, value, i)
  }

  /** `cJSON_GetObjectItemCaseSensitive`: the value of the first member of an
      object whose key is exactly `name`; nothing for any other node. */
  function GetObjectItem(json: Json, name: string): (item: Option<Json>)
    ensures item.None? <==> !json.Object? || !HasKey(json.members, name)
    ensures item.Some? ==> json.Object? && FirstMatch(json.members, name, item.value)
  {
    if json.Object? then FirstItem(json.members, name) else None
  }

  function FirstItem(members: seq<Member>, name: string): (item: Option<Json>)
    ensures item.None? <==> !HasKey(members, name)
    ensures item.Some? ==> FirstMatch(members, name, item.value)
  {
    if |members| == 0 then None
    else if members[0].key == name then
      assert MatchAt(members, name, members[0].value, 0);
      Some(members[0].value)
    else
      var rest := FirstItem(members[1..], name);
      assert HasKey(members, name) ==> HasKey(members[1..], name) by {
        if HasKey(members, name) {
          var i :| 0 <= i < |members| && members[i].key == name;
          assert members[1..][i - 1].key == name;
        }
      }
      assert rest.Some? ==> HasKey(members, name) by {
        if rest.Some? {
          var i :| MatchAt(members[1..], name, rest.value, i);
          assert members[i + 1].key == name;
        }
      }
      assert rest.Some? ==> FirstMatch(members, name, rest.value) by {
        if rest.Some? {
          var i :| MatchAt(members[1..], name, rest.value, i);
          forall k | 0 <= k < i + 1 ensures members[k].key != name {
            if k > 0 {
              assert members[k] == members[1..][k - 1];
            }
          }
          assert MatchAt(members, name, rest.value, i + 1);
        }
      }
      rest
  }

  /** The first member named `name` wins over any later one. */
  lemma FirstMemberWins(members: seq<Member>, i: nat, name: string)
    requires i < |members| && members[i].key == name
    requires forall k :: 0 <= k < i ==> members[k].key != name
    ensures GetObjectItem(Object(members), name) == Some(members[i].value)
  {
    var item := GetObjectItem(Object(members), name);
    var j :| MatchAt(members, name, item.value, j);
    assert j == i;
  }
}
