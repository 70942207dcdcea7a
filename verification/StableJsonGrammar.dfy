/** The canonical text is a JSON text of its value (RFC 8259), its members in ascending order of their keys. */
module StableJsonGrammar {
  import opened StableJson

  // ---- Strings (RFC 8259, section 7) ----

  function HexDigit(c: char): int {
    if '0' <= c <= '9' then c as int - '0' as int
    else if 'a' <= c <= 'f' then c as int - 'a' as int + 10
    else if 'A' <= c <= 'F' then c as int - 'A' as int + 10
    else -1
  }

  /** The piece of a quoted string that stands for the character: itself, or one of its escapes. */
  predicate ReadsChar(t: string, c: char) {
    || (t == [c] && c != '"' && c != '\\' && c as int >= 0x20)
    || (t == "\\\"" && c == '"')
    || (t == "\\\\" && c == '\\')
    || (t == "\\b" && c as int == 0x8)
    || (t == "\\f" && c as int == 0xC)
    || (t == "\\n" && c as int == 0xA)
    || (t == "\\r" && c as int == 0xD)
    || (t == "\\t" && c as int == 0x9)
    || (|t| == 6 && t[..4] == "\\u00" && HexDigit(t[4]) >= 0 && HexDigit(t[5]) >= 0
        && c as int == 16 * HexDigit(t[4]) + HexDigit(t[5]))
  }

  predicate ReadsChars(t: string, s: string)
    decreases |s|
  {
    if s == "" then t == ""
    else exists n :: 0 < n <= |t| && ReadsChar(t[..n], s[0]) && ReadsChars(t[n..], s[1..])
  }

  predicate ReadsString(t: string, s: string) {
    |t| >= 2 && t[0] == '"' && t[|t| - 1] == '"' && ReadsChars(t[1..|t| - 1], s)
  }

  // ---- Values (RFC 8259, sections 2 to 6) ----

  function Joined(parts: seq<string>): string {
    if |parts| == 0 then "" else if |parts| == 1 then parts[0] else parts[0] + "," + Joined(parts[1..])
  }

  // The members of an object, each with its key and its value as texts, taken in this order.
  function MemberTexts(keys: seq<string>, values: seq<string>): seq<string>
    requires |keys| == |values|
  {
    seq(|keys|, i requires 0 <= i < |keys| => keys[i] + ":" + values[i])
  }

  predicate Arranges(order: seq<nat>, ms: seq<Member>) {
    && |order| == |ms| && (forall i :: 0 <= i < |order| ==> order[i] < |ms|)
    && forall i, k :: 0 <= i < k < |order| ==> Before(ms[order[i]].key, ms[order[k]].key)
  }

  /** The text is a JSON text of the value, without white space, its members in ascending order of their keys. */
  ghost predicate Reads(t: string, j: Json)
    decreases j
  {
    match j
    case Null => t == "null"
    case Bool(truth) => t == if truth then "true" else "false"
    case Num(text) => t == text
    case Str(chars) => ReadsString(t, chars)
    case Arr(items) =>
      exists parts: seq<string> :: |parts| == |items| && t == "[" + Joined(parts) + "]"
        && forall i :: 0 <= i < |items| ==> Reads(parts[i], items[i])
    case Obj(members) =>
      exists order: seq<nat>, keys: seq<string>, values: seq<string> ::
        && Arranges(order, members) && |keys| == |values| == |members|
        && t == "{" + Joined(MemberTexts(keys, values)) + "}"
        && forall i :: 0 <= i < |members| ==>
             ReadsString(keys[i], members[order[i]].key) && Reads(values[i], members[order[i]].value)
  }

  lemma CharReads(c: char)
    ensures |EscapeChar(c)| > 0 && ReadsChar(EscapeChar(c), c)
  {
    if c < ' ' {
      var h, l := Hex(c as int / 16), Hex(c as int % 16);
      HexReads(c as int / 16);
      HexReads(c as int % 16);
    }
  }

  lemma HexReads(n: int)
    requires 0 <= n < 16
    ensures HexDigit(Hex(n)) == n
  {
  }

  lemma {:induction false} EscapeReads(s: string)
    ensures ReadsChars(Escape(s), s)
  {
    hide EscapeChar, ReadsChar;
    if s != "" {
      var piece := EscapeChar(s[0]);
      CharReads(s[0]);
      EscapeReads(s[1..]);
      assert Escape(s)[..|piece|] == piece && Escape(s)[|piece|..] == Escape(s[1..]);
    }
  }

  lemma QuoteReads(s: string)
    ensures ReadsString(Quote(s), s)
  {
    hide ReadsChars, Escape;
    EscapeReads(s);
    assert Quote(s)[1..|Quote(s)| - 1] == Escape(s);
  }

  function Texts(items: seq<Json>): (texts: seq<string>)
    ensures |texts| == |items| && forall i :: 0 <= i < |items| ==> texts[i] == Stable(items[i])
  {
    seq(|items|, i requires 0 <= i < |items| => Stable(items[i]))
  }

  lemma {:induction false} ItemsJoined(items: seq<Json>)
    ensures StableItems(items) == Joined(Texts(items))
  {
    hide Stable;
    if |items| > 1 {
      ItemsJoined(items[1..]);
      assert Texts(items)[1..] == Texts(items[1..]);
    }
  }

  // ---- Members ----

  function IndexOf(ms: seq<Member>, key: string): (i: nat)
    requires HasKey(ms, key)
    ensures i < |ms| && ms[i].key == key && ms[i].value == Lookup(ms, key)
  {
    if ms[0].key == key then 0
    else
      assert HasKey(ms[1..], key) by {
        var i :| 0 <= i < |ms| && ms[i].key == key;
        assert ms[1..][i - 1].key == key;
      }
      1 + IndexOf(ms[1..], key)
  }

  lemma {:induction false} InsertLength(key: string, keys: seq<string>)
    ensures |Insert(key, keys)| == |keys| + 1
  {
    if keys != [] {
      InsertLength(key, keys[1..]);
    }
  }

  lemma {:induction false} SortedLength(ms: seq<Member>)
    ensures |SortedKeys(ms)| == |ms|
  {
    if ms != [] {
      SortedLength(ms[1..]);
      InsertLength(ms[0].key, SortedKeys(ms[1..]));
    }
  }

  function Quotes(keys: seq<string>): (texts: seq<string>)
    ensures |texts| == |keys| && forall i :: 0 <= i < |keys| ==> texts[i] == Quote(keys[i])
  {
    seq(|keys|, i requires 0 <= i < |keys| => Quote(keys[i]))
  }

  function ValueTexts(keys: seq<string>, ms: seq<Member>): (texts: seq<string>)
    requires forall k :: k in keys ==> HasKey(ms, k)
    ensures |texts| == |keys|
    ensures forall i :: 0 <= i < |keys| ==> keys[i] in keys && texts[i] == Stable(Lookup(ms, keys[i]))
  {
    seq(|keys|, i requires 0 <= i < |keys| => assert keys[i] in keys; Stable(Lookup(ms, keys[i])))
  }

  lemma {:induction false} MembersJoined(keys: seq<string>, ms: seq<Member>)
    requires forall k :: k in keys ==> HasKey(ms, k)
    ensures StableMembers(keys, ms) == Joined(MemberTexts(Quotes(keys), ValueTexts(keys, ms)))
    decreases |keys|
  {
    hide Stable, Quote, Lookup, HasKey;
    var all := MemberTexts(Quotes(keys), ValueTexts(keys, ms));
    if keys != [] {
      assert keys[0] in keys;
      assert all[0] == Quote(keys[0]) + ":" + Stable(Lookup(ms, keys[0])) == StableMember(keys[0], ms);
      if |keys| > 1 {
        var rest := keys[1..];
        assert forall k :: k in rest ==> k in keys;
        MembersJoined(rest, ms);
        assert all[1..] == MemberTexts(Quotes(rest), ValueTexts(rest, ms));
      }
    }
  }

  function Places(keys: seq<string>, ms: seq<Member>): (order: seq<nat>)
    requires forall k :: k in keys ==> HasKey(ms, k)
    ensures |order| == |keys|
    ensures forall i :: 0 <= i < |keys| ==>
              keys[i] in keys && order[i] < |ms| && ms[order[i]].key == keys[i]
              && ms[order[i]].value == Lookup(ms, keys[i])
  {
    seq(|keys|, i requires 0 <= i < |keys| => assert keys[i] in keys; IndexOf(ms, keys[i]))
  }

  lemma PlacesArrange(ms: seq<Member>)
    requires DistinctKeys(ms)
    ensures forall k :: k in SortedKeys(ms) ==> HasKey(ms, k)
    ensures Arranges(Places(SortedKeys(ms), ms), ms)
  {
    hide SortedKeys, Before;
    SortedKeysExact(ms);
    SortedKeysAscending(ms);
    SortedLength(ms);
  }

  /** For every well-formed value the canonical text is one of its JSON texts, its keys ascending. */
  lemma {:induction false} StableReads(j: Json)
    requires WellFormed(j)
    ensures Reads(Stable(j), j)
    decreases j
  {
    hide ReadsString, Quote, Lookup;
    match j
    case Null =>
    case Bool(_) =>
    case Num(_) =>
    case Str(chars) => QuoteReads(chars);
    case Arr(items) =>
      ItemsJoined(items);
      var parts := Texts(items);
      forall i | 0 <= i < |items| ensures Reads(parts[i], items[i]) {
        StableReads(items[i]);
      }
    case Obj(ms) =>
      PlacesArrange(ms);
      SortedLength(ms);
      var keys := SortedKeys(ms);
      var order, names, values := Places(keys, ms), Quotes(keys), ValueTexts(keys, ms);
      MembersJoined(keys, ms);
      forall i | 0 <= i < |ms|
        ensures ReadsString(names[i], ms[order[i]].key) && Reads(values[i], ms[order[i]].value)
      {
        QuoteReads(keys[i]);
        StableReads(ms[order[i]].value);
      }
  }
}
