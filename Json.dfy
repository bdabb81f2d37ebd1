/**
 * Decoded JSON values as the Flask handlers see them after
 * `request.get_json()`: Python's None, bool, int, str, list and dict.
 * A dict is an ordered list of members, because a Python dict keeps the
 * order in which its keys were inserted.
 */
module Json {
  import opened Wrappers

  datatype Json =
    | Null
    | Bool(b: bool)
    | Int(i: int)
    | Str(s: string)
    | List(items: seq<Json>)
    | Object(members: seq<Member>)

  datatype Member = Member(key: string, value: Json)

  /** Python's `key in d` for a dict. */
  predicate HasKey(ms: seq<Member>, key: string)
  {
    exists k :: 0 <= k < |ms| && ms[k].key == key
  }

  /**
   * Python's `d.get(key)`. When a key occurs more than once the last
   * binding wins, as it does when `json.loads` builds the dict.
   */
  function Get(ms: seq<Member>, key: string): (r: Option<Json>)
    decreases |ms|
  {
    if ms == [] then None
    else if ms[|ms| - 1].key == key then Some(ms[|ms| - 1].value)
    else Get(ms[..|ms| - 1], key)
  }

  /** `d.get(key)` finds a value exactly when `key in d`. */
  lemma {:induction false} GetFindsKey(ms: seq<Member>, key: string)
    ensures Get(ms, key).Some? <==> HasKey(ms, key)
    decreases |ms|
  {
    if ms != [] {
      var init := ms[..|ms| - 1];
      GetFindsKey(init, key);
      if HasKey(init, key) {
        var k :| 0 <= k < |init| && init[k].key == key;
        assert ms[k].key == key;
      }
      if HasKey(ms, key) && ms[|ms| - 1].key != key {
        var k :| 0 <= k < |ms| && ms[k].key == key;
        assert init[k].key == key;
      }
    }
  }

  /** The value `d.get(key)` returns is bound to `key` in `d`. */
  lemma {:induction false} GetIsMember(ms: seq<Member>, key: string)
    requires Get(ms, key).Some?
    ensures Member(key, Get(ms, key).value) in ms
    decreases |ms|
  {
    if ms[|ms| - 1].key != key {
      GetIsMember(ms[..|ms| - 1], key);
    }
  }
}
