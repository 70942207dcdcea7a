/** Canonical texts agree exactly when the values are the same up to the order of object members. */
module StableJsonTheorems {
  import opened StableJson

  // What can follow a complete value inside a larger text.
  predicate Ends(rest: string) {
    rest == [] || rest[0] == ',' || rest[0] == ']' || rest[0] == '}'
  }

  // ---- Reading a text back: a value can be told apart from what follows it ----

  lemma SameSplit(s: string, x: string, y: string)
    requires s + x == s + y
    ensures x == y
  {
    assert (s + x)[|s|..] == x && (s + y)[|s|..] == y;
  }

  lemma EscapedCharReadsBack(c: char, d: char, u: string, v: string)
    requires EscapeChar(c) + u == EscapeChar(d) + v
    ensures c == d && u == v
  {
    var s, t := EscapeChar(c), EscapeChar(d);
    assert (s + u)[0] == s[0] && (t + v)[0] == t[0];
    if |s| > 1 && |t| > 1 {
      assert (s + u)[1] == s[1] && (t + v)[1] == t[1];
    }
    if |s| == 6 && |t| == 6 {
      assert (s + u)[4] == s[4] && (t + v)[4] == t[4];
      assert (s + u)[5] == s[5] && (t + v)[5] == t[5];
    }
    assert |s| == |t|;
    assert (s + u)[|s|..] == u && (t + v)[|t|..] == v;
  }

  lemma EmptyEscape(s: string, x: string)
    ensures (Escape(s) + (['"'] + x))[0] == '"' <==> s == []
  {
    if s != [] {
      assert EscapeChar(s[0]) != [] && EscapeChar(s[0])[0] != '"';
    }
  }

  lemma {:induction false} EscapeReadsBack(s: string, t: string, x: string, y: string)
    requires Escape(s) + (['"'] + x) == Escape(t) + (['"'] + y)
    ensures s == t && x == y
    decreases |s|
  {
    hide EscapeChar;
    if s == [] || t == [] {
      EmptyEscape(s, x);
      EmptyEscape(t, y);
      assert [] + (['"'] + x) == ['"'] + x && [] + (['"'] + y) == ['"'] + y;
      SameSplit(['"'], x, y);
    } else {
      var u := Escape(s[1..]) + (['"'] + x);
      var v := Escape(t[1..]) + (['"'] + y);
      assert Escape(s) + (['"'] + x) == EscapeChar(s[0]) + u;
      assert Escape(t) + (['"'] + y) == EscapeChar(t[0]) + v;
      EscapedCharReadsBack(s[0], t[0], u, v);
      EscapeReadsBack(s[1..], t[1..], x, y);
      assert s == [s[0]] + s[1..] && t == [t[0]] + t[1..];
    }
  }

  lemma QuoteReadsBack(s: string, t: string, x: string, y: string)
    requires Quote(s) + x == Quote(t) + y
    ensures s == t && x == y
  {
    hide Escape;
    assert Quote(s) + x == ['"'] + (Escape(s) + (['"'] + x));
    assert Quote(t) + y == ['"'] + (Escape(t) + (['"'] + y));
    assert (Quote(s) + x)[1..] == Escape(s) + (['"'] + x);
    assert (Quote(t) + y)[1..] == Escape(t) + (['"'] + y);
    EscapeReadsBack(s, t, x, y);
  }

  lemma NumberReadsBack(s: string, t: string, x: string, y: string)
    requires NumberText(s) && NumberText(t) && Ends(x) && Ends(y)
    requires s + x == t + y
    ensures s == t && x == y
  {
    var full := s + x;
    assert forall i :: 0 <= i < |s| ==> full[i] == s[i];
    assert forall i :: 0 <= i < |t| ==> full[i] == t[i];
    assert |s| < |full| ==> full[|s|] == x[0] && !NumberChar(full[|s|]);
    assert |t| < |full| ==> full[|t|] == y[0] && !NumberChar(full[|t|]);
    assert |s| == |t|;
    assert s == (s + x)[..|s|] && t == (t + y)[..|t|];
    assert x == (s + x)[|s|..] && y == (t + y)[|t|..];
  }

  // What a text starts with says what kind of value it writes.
  predicate Opens(j: Json, c: char) {
    match j
    case Null => c == 'n'
    case Bool(truth) => c == if truth then 't' else 'f'
    case Num(_) => '0' <= c <= '9' || c == '-'
    case Str(_) => c == '"'
    case Arr(_) => c == '['
    case Obj(_) => c == '{'
  }

  lemma StableOpens(j: Json, x: string)
    requires WellFormed(j)
    ensures Stable(j) != [] && (Stable(j) + x)[0] == Stable(j)[0] && Opens(j, Stable(j)[0])
  {
  }

  lemma OpeningsDiffer(a: Json, b: Json, c: char)
    requires Opens(a, c) && Opens(b, c)
    ensures a.Null? == b.Null? && a.Bool? == b.Bool? && a.Num? == b.Num?
    ensures a.Str? == b.Str? && a.Arr? == b.Arr? && a.Obj? == b.Obj?
    ensures a.Bool? ==> a.truth == b.truth
  {
  }

  lemma {:induction false} ValueReadsBack(a: Json, b: Json, x: string, y: string)
    requires WellFormed(a) && WellFormed(b) && Ends(x) && Ends(y)
    requires Stable(a) + x == Stable(b) + y
    ensures Same(a, b) && x == y
    decreases a, 0
  {
    hide Opens, Quote, BoolText, NumberText;
    StableOpens(a, x);
    StableOpens(b, y);
    OpeningsDiffer(a, b, Stable(a)[0]);
    if a.Num? {
      NumberReadsBack(a.text, b.text, x, y);
    } else if a.Str? {
      QuoteReadsBack(a.chars, b.chars, x, y);
    } else if a.Arr? {
      ArrayReadsBack(a, b, x, y);
    } else if a.Obj? {
      ObjectReadsBack(a, b, x, y);
    } else {
      SameSplit(Stable(a), x, y);
    }
  }

  lemma {:induction false} ArrayReadsBack(a: Json, b: Json, x: string, y: string)
    requires WellFormed(a) && WellFormed(b) && a.Arr? && b.Arr?
    requires Stable(a) + x == Stable(b) + y
    ensures Same(a, b) && x == y
    decreases a.items, 1
  {
    assert Stable(a) + x == ['['] + (StableItems(a.items) + ([']'] + x));
    assert Stable(b) + y == ['['] + (StableItems(b.items) + ([']'] + y));
    assert (Stable(a) + x)[1..] == StableItems(a.items) + ([']'] + x);
    assert (Stable(b) + y)[1..] == StableItems(b.items) + ([']'] + y);
    ItemsReadBack(a.items, b.items, x, y);
  }

  lemma {:induction false} ItemsReadBack(xs: seq<Json>, ys: seq<Json>, x: string, y: string)
    requires forall i :: 0 <= i < |xs| ==> WellFormed(xs[i])
    requires forall i :: 0 <= i < |ys| ==> WellFormed(ys[i])
    requires StableItems(xs) + ([']'] + x) == StableItems(ys) + ([']'] + y)
    ensures |xs| == |ys| && x == y
    ensures forall i :: 0 <= i < |xs| ==> Same(xs[i], ys[i])
    decreases xs, 0
  {
    if xs == [] || ys == [] {
      EmptyItems(xs, x);
      EmptyItems(ys, y);
      assert [] + ([']'] + x) == [']'] + x && [] + ([']'] + y) == [']'] + y;
      SameSplit([']'], x, y);
    } else {
      var u, v := AfterItem(xs, x), AfterItem(ys, y);
      FirstItem(xs, x);
      FirstItem(ys, y);
      ValueReadsBack(xs[0], ys[0], u, v);
      assert |xs| == 1 <==> |ys| == 1;
      assert u[1..] == v[1..];
      if |xs| == 1 {
        assert u[1..] == x && v[1..] == y;
      } else {
        assert u[1..] == StableItems(xs[1..]) + ([']'] + x) && v[1..] == StableItems(ys[1..]) + ([']'] + y);
        ItemsReadBack(xs[1..], ys[1..], x, y);
      }
    }
  }

  // What stands behind the first item of a list whose closing bracket is followed by x.
  function AfterItem(xs: seq<Json>, x: string): (rest: string)
    requires xs != []
    ensures Ends(rest) && rest != [] && (rest[0] == ',' <==> |xs| > 1)
  {
    if |xs| == 1 then [']'] + x else [','] + (StableItems(xs[1..]) + ([']'] + x))
  }

  lemma FirstItem(xs: seq<Json>, x: string)
    requires xs != []
    ensures StableItems(xs) + ([']'] + x) == Stable(xs[0]) + AfterItem(xs, x)
  {
    hide Stable;
  }

  lemma EmptyItems(xs: seq<Json>, x: string)
    requires forall i :: 0 <= i < |xs| ==> WellFormed(xs[i])
    ensures (StableItems(xs) + ([']'] + x))[0] == ']' <==> xs == []
  {
    if xs != [] {
      StableOpens(xs[0], AfterItem(xs, x));
      FirstItem(xs, x);
    }
  }

  lemma {:induction false} ObjectReadsBack(a: Json, b: Json, x: string, y: string)
    requires WellFormed(a) && WellFormed(b) && a.Obj? && b.Obj?
    requires Stable(a) + x == Stable(b) + y
    ensures Same(a, b) && x == y
    decreases a.members, 2
  {
    hide Lookup, StableMembers, SortedKeys;
    var j, k := SortedKeys(a.members), SortedKeys(b.members);
    SortedKeysExact(a.members);
    SortedKeysExact(b.members);
    assert Stable(a) + x == ['{'] + (StableMembers(j, a.members) + (['}'] + x));
    assert Stable(b) + y == ['{'] + (StableMembers(k, b.members) + (['}'] + y));
    assert (Stable(a) + x)[1..] == StableMembers(j, a.members) + (['}'] + x);
    assert (Stable(b) + y)[1..] == StableMembers(k, b.members) + (['}'] + y);
    MembersReadBack(j, k, a.members, b.members, x, y);
    forall i | 0 <= i < |b.members| ensures HasKey(a.members, b.members[i].key) {
      assert HasKey(b.members, b.members[i].key);
    }
    forall i | 0 <= i < |a.members|
      ensures HasKey(b.members, a.members[i].key)
      ensures Same(a.members[i].value, Lookup(b.members, a.members[i].key))
    {
      assert HasKey(a.members, a.members[i].key);
      LookupMember(a.members, i);
    }
  }

  lemma LookupMember(ms: seq<Member>, i: int)
    requires DistinctKeys(ms) && 0 <= i < |ms|
    ensures HasKey(ms, ms[i].key) && Lookup(ms, ms[i].key) == ms[i].value
  {
  }

  lemma LookupWellFormed(ms: seq<Member>, key: string)
    requires HasKey(ms, key) && forall i :: 0 <= i < |ms| ==> WellFormed(ms[i].value)
    ensures WellFormed(Lookup(ms, key))
  {
  }

  lemma {:induction false} MembersReadBack(j: seq<string>, k: seq<string>, a: seq<Member>, b: seq<Member>,
                                           x: string, y: string)
    requires forall key :: key in j ==> HasKey(a, key)
    requires forall key :: key in k ==> HasKey(b, key)
    requires forall i :: 0 <= i < |a| ==> WellFormed(a[i].value)
    requires forall i :: 0 <= i < |b| ==> WellFormed(b[i].value)
    requires StableMembers(j, a) + (['}'] + x) == StableMembers(k, b) + (['}'] + y)
    ensures j == k && x == y
    ensures forall key :: key in j ==> Same(Lookup(a, key), Lookup(b, key))
    decreases a, 1, |j|
  {
    hide Lookup, StableMember;
    if j == [] || k == [] {
      EmptyMembers(j, a, x);
      EmptyMembers(k, b, y);
      assert [] + (['}'] + x) == ['}'] + x && [] + (['}'] + y) == ['}'] + y;
      SameSplit(['}'], x, y);
    } else {
      var u, v := AfterMember(j, a, x), AfterMember(k, b, y);
      FirstMember(j, a, x);
      FirstMember(k, b, y);
      MemberReadsBack(j[0], k[0], a, b, u, v);
      assert u[1..] == v[1..];
      if |j| == 1 {
        assert u[1..] == x && v[1..] == y;
        assert j == [j[0]] && k == [k[0]];
      } else {
        assert u[1..] == StableMembers(j[1..], a) + (['}'] + x) && v[1..] == StableMembers(k[1..], b) + (['}'] + y);
        MembersReadBack(j[1..], k[1..], a, b, x, y);
        assert j == [j[0]] + j[1..] && k == [k[0]] + k[1..];
      }
    }
  }

  lemma {:induction false} MemberReadsBack(j: string, k: string, a: seq<Member>, b: seq<Member>,
                                           u: string, v: string)
    requires HasKey(a, j) && HasKey(b, k)
    requires forall i :: 0 <= i < |a| ==> WellFormed(a[i].value)
    requires forall i :: 0 <= i < |b| ==> WellFormed(b[i].value)
    requires Ends(u) && Ends(v)
    requires StableMember(j, a) + u == StableMember(k, b) + v
    ensures j == k && u == v && Same(Lookup(a, j), Lookup(b, k))
    decreases a, 0
  {
    hide Quote, Stable, Lookup;
    var p, q := Lookup(a, j), Lookup(b, k);
    assert StableMember(j, a) + u == Quote(j) + ([':'] + (Stable(p) + u));
    assert StableMember(k, b) + v == Quote(k) + ([':'] + (Stable(q) + v));
    QuoteReadsBack(j, k, [':'] + (Stable(p) + u), [':'] + (Stable(q) + v));
    SameSplit([':'], Stable(p) + u, Stable(q) + v);
    LookupWellFormed(a, j);
    LookupWellFormed(b, k);
    ValueReadsBack(p, q, u, v);
  }

  function AfterMember(keys: seq<string>, ms: seq<Member>, x: string): (rest: string)
    requires keys != [] && forall key :: key in keys ==> HasKey(ms, key)
    ensures Ends(rest) && rest != [] && (rest[0] == ',' <==> |keys| > 1)
  {
    if |keys| == 1 then ['}'] + x else [','] + (StableMembers(keys[1..], ms) + (['}'] + x))
  }

  lemma FirstMember(keys: seq<string>, ms: seq<Member>, x: string)
    requires keys != [] && forall key :: key in keys ==> HasKey(ms, key)
    ensures StableMembers(keys, ms) + (['}'] + x) == StableMember(keys[0], ms) + AfterMember(keys, ms, x)
  {
    hide StableMember;
  }

  lemma EmptyMembers(keys: seq<string>, ms: seq<Member>, x: string)
    requires forall key :: key in keys ==> HasKey(ms, key)
    ensures (StableMembers(keys, ms) + (['}'] + x))[0] == '}' <==> keys == []
  {
    hide Stable;
    if keys != [] {
      FirstMember(keys, ms, x);
      assert StableMember(keys[0], ms)[0] == '"';
    }
  }

  // ---- The other direction: the same value writes the same text ----

  lemma {:induction false} SameTexts(a: Json, b: Json)
    requires WellFormed(a) && WellFormed(b) && Same(a, b)
    ensures Stable(a) == Stable(b)
    decreases a, 0
  {
    if a.Arr? {
      SameItemTexts(a.items, b.items);
    } else if a.Obj? {
      SameKeys(a.members, b.members);
      SortedKeysExact(a.members);
      SameMemberTexts(SortedKeys(a.members), a.members, b.members);
    }
  }

  lemma {:induction false} SameItemTexts(xs: seq<Json>, ys: seq<Json>)
    requires |xs| == |ys|
    requires forall i :: 0 <= i < |xs| ==> WellFormed(xs[i]) && WellFormed(ys[i]) && Same(xs[i], ys[i])
    ensures StableItems(xs) == StableItems(ys)
    decreases xs, 0
  {
    if xs != [] {
      SameTexts(xs[0], ys[0]);
      SameItemTexts(xs[1..], ys[1..]);
    }
  }

  // Two objects that are the same have the same keys, so they list them in the same order.
  lemma SameKeys(a: seq<Member>, b: seq<Member>)
    requires WellFormed(Obj(a)) && WellFormed(Obj(b)) && Same(Obj(a), Obj(b))
    ensures SortedKeys(a) == SortedKeys(b)
    ensures forall k :: HasKey(a, k) <==> HasKey(b, k)
  {
    hide Stable, SortedKeys, Lookup;
    SortedKeysExact(a);
    SortedKeysExact(b);
    SortedKeysAscending(a);
    SortedKeysAscending(b);
    AscendingUnique(SortedKeys(a), SortedKeys(b));
  }

  lemma {:induction false} SameMemberTexts(keys: seq<string>, a: seq<Member>, b: seq<Member>)
    requires WellFormed(Obj(a)) && WellFormed(Obj(b)) && Same(Obj(a), Obj(b))
    requires forall k :: k in keys ==> HasKey(a, k) && HasKey(b, k)
    ensures StableMembers(keys, a) == StableMembers(keys, b)
    decreases a, 0, |keys|
  {
    hide SortedKeys, Stable;
    if keys != [] {
      var p, q := Lookup(a, keys[0]), Lookup(b, keys[0]);
      LookupWellFormed(a, keys[0]);
      LookupWellFormed(b, keys[0]);
      SameTexts(p, q);
      SameMemberTexts(keys[1..], a, b);
    }
  }

  /**
   * Comparing canonical texts is comparing values: for any two parsed values the texts are equal
   * exactly when the values are the same up to the order of object members.
   */
  lemma EqualTextsMeanSameValues(a: Json, b: Json)
    requires WellFormed(a) && WellFormed(b)
    ensures Stable(a) == Stable(b) <==> Same(a, b)
  {
    if Stable(a) == Stable(b) {
      assert Stable(a) + [] == Stable(b) + [];
      ValueReadsBack(a, b, [], []);
    }
    if Same(a, b) {
      SameTexts(a, b);
    }
  }

  /**
   * A text determines where its value ends, so values can be written one after another between
   * delimiters and still be told apart.
   */
  lemma NoTextIsAPrefixOfAnother(a: Json, b: Json, rest: string)
    requires WellFormed(a) && WellFormed(b) && Ends(rest)
    requires Stable(a) + rest == Stable(b)
    ensures rest == [] && Same(a, b)
  {
    assert Stable(b) == Stable(b) + [];
    ValueReadsBack(a, b, rest, []);
  }

  // ---- Lists of paths, which is what the inventory compares ----

  function PathList(paths: seq<string>): (j: Json)
    ensures j.Arr? && |j.items| == |paths|
    ensures forall i :: 0 <= i < |paths| ==> j.items[i] == Str(paths[i])
  {
    Arr(seq(|paths|, i requires 0 <= i < |paths| => Str(paths[i])))
  }

  /** Comparing the canonical texts of two lists of paths is comparing the lists, order included. */
  lemma PathListsCompareExactly(xs: seq<string>, ys: seq<string>)
    ensures Stable(PathList(xs)) == Stable(PathList(ys)) <==> xs == ys
  {
    hide Stable;
    var a, b := PathList(xs), PathList(ys);
    EqualTextsMeanSameValues(a, b);
    if Same(a, b) {
      forall i | 0 <= i < |xs| ensures xs[i] == ys[i] {
        assert Same(a.items[i], b.items[i]);
      }
    }
    if xs == ys {
      assert a == b;
    }
  }
}
