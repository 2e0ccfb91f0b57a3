/** The order in which the groups of a blocking pass are visited: by the JSON text of their keys. */
module KeyOrder {
  import opened Domain
  import opened Blocking

  function Hex(d: nat): char
    requires d < 16
  {
    "0123456789abcdef"[d]
  }

  /** A character inside a JSON text that leaves characters beyond ASCII as they are. */
  function Escape(c: char): (text: string)
    ensures text != ""
    ensures text[0] != '"'
  {
    if c == '"' then "\\\""
    else if c == '\\' then "\\\\"
    else if c == '\n' then "\\n"
    else if c == '\r' then "\\r"
    else if c == '\t' then "\\t"
    else if c == '\U{8}' then "\\b"
    else if c == '\U{C}' then "\\f"
    else if c < ' ' then "\\u00" + [Hex(c as int / 16), Hex(c as int % 16)]
    else [c]
  }

  function Escaped(s: string): string {
    if s == "" then "" else Escape(s[0]) + Escaped(s[1..])
  }

  function Quoted(s: string): string {
    "\"" + Escaped(s) + "\""
  }

  function FieldText(field: Option<string>): string {
    if field.Some? then Quoted(field.value) else "null"
  }

  function SideText(side: Option<TradeSide>): Option<string> {
    match side
    case None => None
    case Some(Buy) => Some("BUY")
    case Some(Sell) => Some("SELL")
  }

  function Fields(key: Key): seq<Option<string>> {
    [key.instrument, SideText(key.side), key.currency, key.alias]
  }

  function ListText(fields: seq<Option<string>>): string {
    if fields == [] then "]"
    else FieldText(fields[0]) + (if |fields| == 1 then "]" else "," + ListText(fields[1..]))
  }

  function KeyText(key: Key): string {
    "[" + ListText(Fields(key))
  }

  // ----- different keys have different texts -----

  lemma HexDiffers(c: nat, d: nat)
    requires c < 16 && d < 16 && Hex(c) == Hex(d)
    ensures c == d
  {
  }

  lemma Regroup(a: string, b: string, c: string)
    ensures (a + b) + c == a + (b + c)
  {
  }

  lemma SameTail(a: string, b: string, x: string, y: string)
    requires a + x == b + y && |a| == |b|
    ensures a == b && x == y
  {
    assert a == (a + x)[..|a|] && b == (b + y)[..|b|];
    assert x == (a + x)[|a|..] && y == (b + y)[|b|..];
  }

  predicate Control(c: char) {
    c < ' ' && c != '\n' && c != '\r' && c != '\t' && c != '\U{8}' && c != '\U{C}'
  }

  lemma ControlEscape(c: char)
    requires Control(c)
    ensures |Escape(c)| == 6 && Escape(c)[1] == 'u'
    ensures Escape(c)[4] == Hex(c as int / 16) && Escape(c)[5] == Hex(c as int % 16)
  {
  }

  lemma EscapeDiffers(c: char, d: char)
    requires Escape(c) == Escape(d)
    ensures c == d
  {
    if Control(c) && Control(d) {
      ControlEscape(c);
      ControlEscape(d);
      HexDiffers(c as int / 16, d as int / 16);
      HexDiffers(c as int % 16, d as int % 16);
    } else if Control(c) {
      ControlEscape(c);
    } else if Control(d) {
      ControlEscape(d);
    }
  }

  /** Escapes can be told apart inside a longer text: the first two characters tell how long one is. */
  lemma EscapeDecodes(c: char, d: char, x: string, y: string)
    requires Escape(c) + x == Escape(d) + y
    ensures c == d && x == y
  {
    var all := Escape(c) + x;
    assert all[0] == Escape(c)[0] && all[0] == Escape(d)[0];
    if |Escape(c)| > 1 && |Escape(d)| > 1 {
      assert all[1] == Escape(c)[1] && all[1] == Escape(d)[1];
    }
    assert |Escape(c)| == |Escape(d)|;
    SameTail(Escape(c), Escape(d), x, y);
    EscapeDiffers(c, d);
  }

  /** How an escaped text that a quote ends begins. */
  lemma EscapedBegins(s: string, a: string)
    requires a != "" && a[0] == '"'
    ensures s == "" ==> Escaped(s) + a == a
    ensures s != "" ==> Escaped(s) + a == Escape(s[0]) + (Escaped(s[1..]) + a)
    ensures (Escaped(s) + a)[0] == '"' <==> s == ""
  {
    if s != "" {
      Regroup(Escape(s[0]), Escaped(s[1..]), a);
      assert (Escaped(s) + a)[0] == Escape(s[0])[0];
    }
  }

  lemma {:induction false} EscapedDecodes(s: string, t: string, a: string, b: string)
    requires a != "" && a[0] == '"' && b != "" && b[0] == '"'
    requires Escaped(s) + a == Escaped(t) + b
    ensures s == t && a == b
  {
    EscapedBegins(s, a);
    EscapedBegins(t, b);
    if s != "" {
      EscapeDecodes(s[0], t[0], Escaped(s[1..]) + a, Escaped(t[1..]) + b);
      EscapedDecodes(s[1..], t[1..], a, b);
      assert s == [s[0]] + s[1..] && t == [t[0]] + t[1..];
    }
  }

  lemma QuotedDecodes(s: string, t: string, x: string, y: string)
    requires Quoted(s) + x == Quoted(t) + y
    ensures s == t && x == y
  {
    Regroup("\"" + Escaped(s), "\"", x);
    Regroup("\"", Escaped(s), "\"" + x);
    Regroup("\"" + Escaped(t), "\"", y);
    Regroup("\"", Escaped(t), "\"" + y);
    SameTail("\"", "\"", Escaped(s) + ("\"" + x), Escaped(t) + ("\"" + y));
    EscapedDecodes(s, t, "\"" + x, "\"" + y);
    SameTail("\"", "\"", x, y);
  }

  lemma FieldDecodes(f: Option<string>, g: Option<string>, x: string, y: string)
    requires FieldText(f) + x == FieldText(g) + y
    ensures f == g && x == y
  {
    assert (FieldText(f) + x)[0] == FieldText(f)[0] && (FieldText(g) + y)[0] == FieldText(g)[0];
    if f.Some? && g.Some? {
      QuotedDecodes(f.value, g.value, x, y);
    } else if f.None? && g.None? {
      SameTail("null", "null", x, y);
    }
  }

  lemma {:induction false} ListDecodes(f: seq<Option<string>>, g: seq<Option<string>>)
    requires |f| == |g| && ListText(f) == ListText(g)
    ensures f == g
  {
    if |f| == 1 {
      FieldDecodes(f[0], g[0], "]", "]");
    } else if |f| > 1 {
      FieldDecodes(f[0], g[0], "," + ListText(f[1..]), "," + ListText(g[1..]));
      SameTail(",", ",", ListText(f[1..]), ListText(g[1..]));
      ListDecodes(f[1..], g[1..]);
      assert f == [f[0]] + f[1..] && g == [g[0]] + g[1..];
    }
  }

  /** The text decides the key. */
  lemma KeyTextDecides(a: Key, b: Key)
    requires KeyText(a) == KeyText(b)
    ensures a == b
  {
    SameTail("[", "[", ListText(Fields(a)), ListText(Fields(b)));
    ListDecodes(Fields(a), Fields(b));
    assert Fields(a)[0] == Fields(b)[0] && Fields(a)[1] == Fields(b)[1];
    assert Fields(a)[2] == Fields(b)[2] && Fields(a)[3] == Fields(b)[3];
  }

  // ----- the order of texts -----

  predicate TextUpTo(a: string, b: string) {
    a == "" || (b != "" && (a[0] < b[0] || (a[0] == b[0] && TextUpTo(a[1..], b[1..]))))
  }

  lemma {:induction false} TextTotal(a: string, b: string)
    ensures TextUpTo(a, b) || TextUpTo(b, a)
  {
    if a != "" && b != "" {
      TextTotal(a[1..], b[1..]);
    }
  }

  lemma {:induction false} TextTransitive(a: string, b: string, c: string)
    requires TextUpTo(a, b) && TextUpTo(b, c)
    ensures TextUpTo(a, c)
  {
    if a != "" && a[0] == b[0] && b[0] == c[0] {
      TextTransitive(a[1..], b[1..], c[1..]);
    }
  }

  lemma {:induction false} TextAntisymmetric(a: string, b: string)
    requires TextUpTo(a, b) && TextUpTo(b, a)
    ensures a == b
  {
    if a != "" {
      TextAntisymmetric(a[1..], b[1..]);
      assert a == [a[0]] + a[1..] && b == [b[0]] + b[1..];
    }
  }

  // ----- keys in order -----

  predicate UpTo(a: Key, b: Key) {
    TextUpTo(KeyText(a), KeyText(b))
  }

  predicate IsFirst(m: Key, keys: set<Key>) {
    m in keys && forall k :: k in keys ==> UpTo(m, k)
  }

  lemma {:induction false} FirstExists(keys: set<Key>)
    requires keys != {}
    ensures exists m :: IsFirst(m, keys)
  {
    var y :| y in keys;
    var rest := keys - {y};
    if rest == {} {
      TextTotal(KeyText(y), KeyText(y));
      assert keys == {y};
      assert IsFirst(y, keys);
    } else {
      FirstExists(rest);
      var m :| IsFirst(m, rest);
      FirstOfTwo(keys, y, m);
    }
  }

  lemma FirstOfTwo(keys: set<Key>, y: Key, m: Key)
    requires y in keys && IsFirst(m, keys - {y})
    ensures exists k :: IsFirst(k, keys)
  {
    TextTotal(KeyText(y), KeyText(y));
    TextTotal(KeyText(y), KeyText(m));
    if UpTo(y, m) {
      forall k | k in keys
        ensures UpTo(y, k)
      {
        if k != y {
          assert k in keys - {y} && UpTo(m, k);
          TextTransitive(KeyText(y), KeyText(m), KeyText(k));
        }
      }
      assert IsFirst(y, keys);
    } else {
      assert IsFirst(m, keys);
    }
  }

  lemma FirstIsUnique(keys: set<Key>, m: Key, k: Key)
    requires IsFirst(m, keys) && IsFirst(k, keys)
    ensures m == k
  {
    TextAntisymmetric(KeyText(m), KeyText(k));
    KeyTextDecides(m, k);
  }

  function First(keys: set<Key>): (m: Key)
    requires keys != {}
    ensures IsFirst(m, keys)
  {
    FirstExists(keys);
    assert forall m, k :: IsFirst(m, keys) && IsFirst(k, keys) ==> m == k by {
      forall m, k | IsFirst(m, keys) && IsFirst(k, keys)
        ensures m == k
      {
        FirstIsUnique(keys, m, k);
      }
    }
    var m :| m in keys && IsFirst(m, keys);
    m
  }

  function SortedKeys(keys: set<Key>): seq<Key> {
    if keys == {} then [] else [First(keys)] + SortedKeys(keys - {First(keys)})
  }

  ghost predicate Sorted(keys: seq<Key>) {
    forall i, j :: 0 <= i < j < |keys| ==> keys[i] != keys[j] && UpTo(keys[i], keys[j])
  }

  /** Every key once, in ascending order of its text. */
  lemma {:induction false} SortedKeysAre(keys: set<Key>)
    ensures forall k :: k in SortedKeys(keys) <==> k in keys
    ensures Sorted(SortedKeys(keys))
  {
    if keys != {} {
      var first, rest := First(keys), SortedKeys(keys - {First(keys)});
      SortedKeysAre(keys - {first});
      FirstThenRest(first, rest, keys);
    }
  }

  lemma FirstThenRest(first: Key, rest: seq<Key>, keys: set<Key>)
    requires IsFirst(first, keys) && Sorted(rest) && forall k :: k in rest <==> k in keys - {first}
    ensures Sorted([first] + rest) && forall k :: k in [first] + rest <==> k in keys
  {
    var all := [first] + rest;
    forall i, j | 0 <= i < j < |all|
      ensures all[i] != all[j] && UpTo(all[i], all[j])
    {
      assert all[j] == rest[j - 1] && rest[j - 1] in rest;
    }
  }

  // ----- the texts and their order, character by character -----

  ghost function HexValue(d: char): int {
    if d <= '9' then d as int - '0' as int else d as int - 'a' as int + 10
  }

  /** Quotes and backslashes follow a backslash, the five named control characters have their letter, the other control
      characters their code in hexadecimal, and everything else stands for itself. */
  lemma EscapesAre(c: char)
    ensures c in {'"', '\\'} ==> Escape(c) == ['\\', c]
    ensures forall letter :: (c as int, letter) in {(8, 'b'), (9, 't'), (10, 'n'), (12, 'f'), (13, 'r')} ==>
              Escape(c) == ['\\', letter]
    ensures c as int < 32 && c as int !in {8, 9, 10, 12, 13} ==>
              && |Escape(c)| == 6 && Escape(c)[..4] == "\\u00"
              && HexValue(Escape(c)[4]) * 16 + HexValue(Escape(c)[5]) == c as int
    ensures c as int >= 32 && c !in {'"', '\\'} ==> Escape(c) == [c]
  {
    if Control(c) {
      ControlEscape(c);
      HexIs(c as int / 16);
      HexIs(c as int % 16);
    }
  }

  lemma HexIs(d: nat)
    requires d < 16
    ensures HexValue(Hex(d)) == d
  {
  }

  lemma SidesAre(side: Option<TradeSide>)
    ensures FieldText(SideText(side)) ==
            match side case None => "null" case Some(Buy) => "\"BUY\"" case Some(Sell) => "\"SELL\""
  {
    Letters("BUY", 3);
    Letters("SELL", 4);
  }

  lemma {:induction false} Letters(s: string, n: nat)
    requires |s| == n && forall c :: c in s ==> 'A' <= c <= 'Z'
    ensures Escaped(s) == s
  {
    if n == 0 {
      assert s == "";
    } else {
      assert forall c :: c in s[1..] ==> c in s;
      Letters(s[1..], n - 1);
      assert s[0] in s && Escape(s[0]) == [s[0]];
      assert s == [s[0]] + s[1..];
    }
  }

  lemma LastField(f: Option<string>)
    ensures ListText([f]) == FieldText(f) + "]"
  {
  }

  lemma MoreFields(f: Option<string>, rest: seq<Option<string>>)
    requires rest != []
    ensures ListText([f] + rest) == FieldText(f) + ("," + ListText(rest))
  {
    assert ([f] + rest)[1..] == rest;
  }

  /** A key's text lists its instrument, side, currency and alias, in this order. */
  lemma KeyTextIs(key: Key)
    ensures KeyText(key) ==
            "[" + (FieldText(key.instrument) + ("," + (FieldText(SideText(key.side)) + ("," +
            (FieldText(key.currency) + ("," + (FieldText(key.alias) + "]")))))))
  {
    var (a, b, c, d) := (key.instrument, SideText(key.side), key.currency, key.alias);
    LastField(d);
    MoreFields(c, [d]);
    MoreFields(b, [c] + [d]);
    MoreFields(a, [b] + ([c] + [d]));
    assert Fields(key) == [a] + ([b] + ([c] + [d]));
  }

  lemma FieldTextIs(field: Option<string>)
    ensures FieldText(field) == match field case None => "null" case Some(s) => "\"" + Escaped(s) + "\""
    ensures forall s: string :: s != "" ==> Escaped(s) == Escape(s[0]) + Escaped(s[1..])
    ensures Escaped("") == ""
  {
  }

  /** One text is a prefix of the other, or smaller where the two first differ. */
  ghost predicate Alphabetical(a: string, b: string, i: nat) {
    i <= |a| && i <= |b| && a[..i] == b[..i] && (i == |a| || (i < |b| && a[i] < b[i]))
  }

  lemma FirstDecides(a: string, b: string, i: nat)
    requires a != "" && Alphabetical(a, b, i)
    ensures b != "" && a[0] <= b[0]
  {
    if i > 0 {
      assert a[..i][0] == a[0] && b[..i][0] == b[0];
    }
  }

  lemma {:induction false} OrderIsAlphabetical(a: string, b: string)
    ensures TextUpTo(a, b) <==> exists i: nat :: Alphabetical(a, b, i)
  {
    if a == "" {
      assert Alphabetical(a, b, 0);
    } else {
      forall i: nat | Alphabetical(a, b, i)
        ensures b != "" && a[0] <= b[0]
      {
        FirstDecides(a, b, i);
      }
      if b != "" && a[0] == b[0] {
        OrderIsAlphabetical(a[1..], b[1..]);
        AlphabeticalTail(a, b);
      } else if b != "" && a[0] < b[0] {
        assert Alphabetical(a, b, 0);
      }
    }
  }

  lemma AlphabeticalTail(a: string, b: string)
    requires a != "" && b != "" && a[0] == b[0]
    ensures (exists i: nat :: Alphabetical(a, b, i)) <==> exists i: nat :: Alphabetical(a[1..], b[1..], i)
  {
    if i: nat :| Alphabetical(a, b, i) {
      assert i > 0;
      assert a[1..][..i - 1] == a[..i][1..] && b[1..][..i - 1] == b[..i][1..];
      assert Alphabetical(a[1..], b[1..], i - 1);
    }
    if i: nat :| Alphabetical(a[1..], b[1..], i) {
      assert a[..i + 1] == [a[0]] + a[1..][..i] && b[..i + 1] == [b[0]] + b[1..][..i];
      assert Alphabetical(a, b, i + 1);
    }
  }
}
