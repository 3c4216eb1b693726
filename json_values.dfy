/** JSON values as the bot sees them after `response.json()`, and the three
    Python operations homework.py applies to them: `key in value`,
    `value[key]` with a string key, and `str(value)` inside an f-string. */
module JsonValues {
  import opened Outcomes

  datatype Json =
    | JNull
    | JBool(b: bool)
    | JInt(i: int)
    | JStr(str: string)
    | JList(items: seq<Json>)
    | JObj(members: map<string, Json>)

  /** `needle` occurs as a contiguous piece of `hay` (Python's `needle in hay` on two str). */
  predicate IsSubstring(needle: string, hay: string)
    decreases |hay|
  {
    if |needle| > |hay| then false
    else hay[..|needle|] == needle || (|hay| > 0 && IsSubstring(needle, hay[1..]))
  }

  /** `needle` starts at index `i` of `hay`. */
  predicate OccursAt(needle: string, hay: string, i: int) {
    0 <= i && i + |needle| <= |hay| && hay[i..i + |needle|] == needle
  }

  /** The recursive search finds exactly the positions where `needle` occurs. */
  lemma {:induction false} IsSubstringFindsOccurrence(needle: string, hay: string)
    ensures IsSubstring(needle, hay) <==> exists i :: OccursAt(needle, hay, i)
    decreases |hay|
  {
    if |needle| <= |hay| {
      if hay[..|needle|] == needle {
        assert OccursAt(needle, hay, 0);
      } else {
        var tail := hay[1..];
        IsSubstringFindsOccurrence(needle, tail);
        if IsSubstring(needle, tail) {
          var i :| OccursAt(needle, tail, i);
          assert hay[i + 1..i + 1 + |needle|] == tail[i..i + |needle|];
          assert OccursAt(needle, hay, i + 1);
        } else {
          // every later occurrence in `hay` is one in `tail`, and there is none
          forall i | OccursAt(needle, hay, i)
            ensures i == 0 || OccursAt(needle, tail, i - 1)
          {
            if i != 0 {
              assert tail[i - 1..i - 1 + |needle|] == hay[i..i + |needle|];
            }
          }
        }
      }
    }
  }

  /** Python's `key in value` for a str `key`: key lookup on a dict, element
      membership on a list, substring search on a str; a TypeError on a number,
      a bool or None, which are not containers. */
  function Contains(value: Json, key: string): (r: Outcome<bool>)
    ensures r.Raise? <==> value.JNull? || value.JBool? || value.JInt?
    ensures r.Raise? ==> r.failure == WrongType
    ensures value.JObj? ==> r == Ok(key in value.members)
    ensures value.JList? ==> (r == Ok(true) <==> exists k :: 0 <= k < |value.items| && value.items[k] == JStr(key))
    ensures value.JStr? ==> (r == Ok(true) <==> exists i :: OccursAt(key, value.str, i))
  {
    match value
    case JObj(members) => Ok(key in members)
    case JList(items) => Ok(JStr(key) in items)
    case JStr(s) =>
      IsSubstringFindsOccurrence(key, s);
      Ok(IsSubstring(key, s))
    case _ => Raise(WrongType)
  }

  /** Python's `value[key]` for a str `key`: the member of a dict, a KeyError
      when the dict has no such key, a TypeError on anything that is not a dict
      (lists and strings take only integer indices). */
  function Index(value: Json, key: string): (r: Outcome<Json>)
    ensures r.Ok? <==> value.JObj? && key in value.members
    ensures r.Ok? ==> r.value == value.members[key]
    ensures r.Raise? ==> r.failure == (if value.JObj? then KeyMissing(key) else WrongType)
  {
    match value
    case JObj(members) => if key in members then Ok(members[key]) else Raise(KeyMissing(key))
    case _ => Raise(WrongType)
  }

  function DigitChar(d: nat): (c: char)
    requires d < 10
    ensures '0' <= c <= '9' && c as int - '0' as int == d
  {
    "0123456789"[d]
  }

  predicate AllDigits(s: string) {
    forall k :: 0 <= k < |s| ==> '0' <= s[k] <= '9'
  }

  /** The number a string of decimal digits denotes, most significant first. */
  function DecimalValue(s: string): nat
    requires AllDigits(s)
  {
    if s == [] then 0
    else DecimalValue(s[..|s| - 1]) * 10 + (s[|s| - 1] as int - '0' as int)
  }

  /** The decimal digits of `n`: they denote `n`, and there is no leading zero. */
  function NatText(n: nat): (s: string)
    ensures |s| > 0 && AllDigits(s)
    ensures DecimalValue(s) == n
    ensures s[0] == '0' ==> s == "0"
  {
    if n < 10 then [DigitChar(n)]
    else
      var front := NatText(n / 10);
      var s := front + [DigitChar(n % 10)];
      assert s[..|s| - 1] == front;
      s
  }

  /** Python's `str()` of a JSON value, as an f-string renders it. A str is
      itself, an int its decimal digits, a bool `True` or `False`, null `None`.
      A list or a dict is rendered by its repr, with Python's quoting rules and
      the dict's insertion order; that rendering is not part of this model and
      is taken from `showNested`. */
  function Display(value: Json, showNested: Json -> string): (s: string)
    ensures value.JStr? ==> s == value.str
    ensures value.JInt? ==> |s| > 0 && (value.i < 0 <==> s[0] == '-')
    ensures value.JInt? && value.i >= 0 ==> AllDigits(s) && DecimalValue(s) == value.i && (s[0] == '0' ==> s == "0")
    ensures value.JInt? && value.i < 0 ==> AllDigits(s[1..]) && DecimalValue(s[1..]) == -value.i && s[1] != '0'
    ensures value.JBool? ==> s == (if value.b then "True" else "False")
    ensures value.JNull? ==> s == "None"
    ensures value.JList? || value.JObj? ==> s == showNested(value)
  {
    match value
    case JStr(s) => s
    case JInt(i) =>
      if i < 0 then
        var digits := NatText(-i);
        assert ("-" + digits)[1..] == digits;
        "-" + digits
      else NatText(i)
    case JBool(b) => if b then "True" else "False"
    case JNull => "None"
    case _ => showNested(value)
  }
}
