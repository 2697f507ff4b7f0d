/** The change detector of pkg/utils/checksum.go together with the text it is fed: the
    `%v` rendering of a Secret's new data. */
module Checksum {
  import opened Kube
  import opened Ordering

  /** A byte printed in decimal. */
  function Decimal(b: byte): string {
    var n := b as int;
    if n < 10 then [Digit(n)]
    else if n < 100 then [Digit(n / 10), Digit(n % 10)]
    else [Digit(n / 100), Digit(n / 10 % 10), Digit(n % 10)]
  }

  function Digit(n: int): char
    requires 0 <= n < 10
  {
    '0' + n as char
  }

  /** `%v` of a byte slice, without its brackets. */
  function ByteList(v: Bytes): string {
    if v == [] then ""
    else if |v| == 1 then Decimal(v[0])
    else Decimal(v[0]) + " " + ByteList(v[1..])
  }

  function EntryText(key: string, v: Bytes): string {
    key + ":" + ("[" + ByteList(v) + "]")
  }

  function EntriesText(keys: seq<string>, data: Data): string
    requires forall k | k in keys :: k in data
  {
    if keys == [] then ""
    else if |keys| == 1 then EntryText(keys[0], data[keys[0]])
    else EntryText(keys[0], data[keys[0]]) + " " + EntriesText(keys[1..], data)
  }

  /** `fmt.Fprintf(b, "%v", secretData)`: the map printed in key order. */
  function Text(data: Data): string {
    "map[" + EntriesText(SortedSeq(data.Keys), data) + "]"
  }

  function ChecksumOf(libs: Libs, data: Data): Bytes {
    libs.hash(Text(data))
  }

  /** ContentHasChanged of the source. */
  predicate ContentHasChanged(name: string, newChecksum: Bytes, prevChecksums: map<string, Bytes>) {
    !(name in prevChecksums && newChecksum == prevChecksums[name])
  }

  ghost predicate Injective(libs: Libs) {
    forall a, b :: libs.hash(a) == libs.hash(b) ==> a == b
  }

  predicate ColonFree(key: string) {
    ':' !in key
  }

  ghost predicate PrintableKeys(data: Data) {
    forall k | k in data :: ColonFree(k)
  }

  // ---- unique reading of the text ----

  /** Text up to the first occurrence of a separator is determined. */
  lemma SplitOnce(a: string, b: string, c: char, x: string, y: string)
    requires c !in a && c !in b
    requires a + [c] + x == b + [c] + y
    ensures a == b && x == y
  {
    var s := a + [c] + x;
    assert s[|a|] == c && s == b + [c] + y && s[|b|] == c;
    assert forall i | 0 <= i < |a| :: s[i] == a[i];
    assert forall i | 0 <= i < |b| :: s[i] == b[i];
    assert a == s[..|a|] && b == s[..|b|];
    assert x == s[|a| + 1..] && y == s[|b| + 1..];
  }

  lemma DecimalChars(b: byte)
    ensures |Decimal(b)| > 0
    ensures ' ' !in Decimal(b) && ']' !in Decimal(b)
  {
  }

  /** The number a string of digits stands for. */
  function Parse(s: string): int {
    if s == "" then 0 else Parse(s[..|s| - 1]) * 10 + (s[|s| - 1] as int - '0' as int)
  }

  lemma ParseDecimal(b: byte)
    ensures Parse(Decimal(b)) == b as int
  {
    var n := b as int;
    if n >= 100 {
      var front := [Digit(n / 100), Digit(n / 10 % 10)];
      assert Decimal(b)[..2] == front && front[..1] == [Digit(n / 100)] && [Digit(n / 100)][..0] == "";
      assert Parse([Digit(n / 100)]) == n / 100;
      assert Parse(front) == n / 10;
    } else if n >= 10 {
      assert Decimal(b)[..1] == [Digit(n / 10)] && [Digit(n / 10)][..0] == "";
      assert Parse([Digit(n / 10)]) == n / 10;
    }
  }

  lemma DecimalInjective(a: byte, b: byte)
    requires Decimal(a) == Decimal(b)
    ensures a == b
  {
    assert Parse(Decimal(a)) == Parse(Decimal(b));
    ParseDecimal(a);
    ParseDecimal(b);
  }

  lemma {:induction false} ByteListChars(v: Bytes)
    ensures ']' !in ByteList(v)
    ensures v != [] ==> |ByteList(v)| > 0
    ensures ' ' in ByteList(v) <==> |v| > 1
  {
    if v != [] {
      DecimalChars(v[0]);
      if |v| > 1 {
        ByteListChars(v[1..]);
        assert ByteList(v)[|Decimal(v[0])|] == ' ';
      }
    }
  }

  lemma {:induction false} ByteListInjective(v: Bytes, w: Bytes)
    requires ByteList(v) == ByteList(w)
    ensures v == w
  {
    ByteListChars(v);
    ByteListChars(w);
    if v != [] {
      DecimalChars(v[0]);
      DecimalChars(w[0]);
      if |v| == 1 {
        DecimalInjective(v[0], w[0]);
      } else {
        SplitOnce(Decimal(v[0]), Decimal(w[0]), ' ', ByteList(v[1..]), ByteList(w[1..]));
        DecimalInjective(v[0], w[0]);
        ByteListInjective(v[1..], w[1..]);
        assert v == [v[0]] + v[1..] && w == [w[0]] + w[1..];
      }
    }
  }

  lemma EntrySplit(k: string, v: Bytes, x: string)
    ensures EntryText(k, v) + x == k + [':'] + (['['] + (ByteList(v) + [']'] + x))
  {
    var list := ByteList(v);
    Associate(k + ":", "[" + list + "]", x);
    Associate("[" + list, "]", x);
    Associate("[", list, "]" + x);
    Associate(list, "]", x);
  }

  lemma ListUnique(v: Bytes, x: string, w: Bytes, y: string)
    requires ByteList(v) + [']'] + x == ByteList(w) + [']'] + y
    ensures v == w && x == y
  {
    ByteListChars(v);
    ByteListChars(w);
    SplitOnce(ByteList(v), ByteList(w), ']', x, y);
    ByteListInjective(v, w);
  }

  /** One entry, read off the front of a text. */
  lemma EntryUnique(k: string, v: Bytes, x: string, l: string, w: Bytes, y: string)
    requires ColonFree(k) && ColonFree(l)
    requires EntryText(k, v) + x == EntryText(l, w) + y
    ensures k == l && v == w && x == y
  {
    var p, q := ByteList(v) + [']'] + x, ByteList(w) + [']'] + y;
    EntrySplit(k, v, x);
    EntrySplit(l, w, y);
    SplitOnce(k, l, ':', ['['] + p, ['['] + q);
    assert (['['] + p)[1..] == p && (['['] + q)[1..] == q;
    ListUnique(v, x, w, y);
  }

  lemma EntriesNonempty(ks: seq<string>, d: Data)
    requires forall k | k in ks :: k in d
    ensures |EntriesText(ks, d)| == 0 <==> ks == []
  {
  }

  /** What follows the first entry of a nonempty list. */
  function Tail(ks: seq<string>, d: Data): string
    requires ks != [] && forall k | k in ks :: k in d
  {
    if |ks| == 1 then "]" else " " + (EntriesText(ks[1..], d) + "]")
  }

  lemma FirstEntry(ks: seq<string>, d: Data)
    requires ks != [] && forall k | k in ks :: k in d
    ensures EntriesText(ks, d) + "]" == EntryText(ks[0], d[ks[0]]) + Tail(ks, d)
    ensures Tail(ks, d)[0] == ']' <==> |ks| == 1
    ensures |ks| > 1 ==> Tail(ks, d)[1..] == EntriesText(ks[1..], d) + "]"
  {
    if |ks| > 1 {
      var first, rest := EntryText(ks[0], d[ks[0]]), EntriesText(ks[1..], d);
      Associate(first, " ", rest);
      Associate(first, " " + rest, "]");
      Associate(" ", rest, "]");
    }
  }

  lemma SameTails(ks: seq<string>, d: Data, ls: seq<string>, e: Data)
    requires ks != [] && ls != [] && (forall k | k in ks :: k in d) && (forall k | k in ls :: k in e)
    requires Tail(ks, d) == Tail(ls, e)
    ensures |ks| == 1 <==> |ls| == 1
    ensures |ks| > 1 ==> EntriesText(ks[1..], d) + "]" == EntriesText(ls[1..], e) + "]"
  {
    FirstEntry(ks, d);
    FirstEntry(ls, e);
  }

  lemma SameLists(ks: seq<string>, d: Data, ls: seq<string>, e: Data)
    requires ks != [] && ls != [] && (forall k | k in ks :: k in d) && (forall k | k in ls :: k in e)
    requires ks[0] == ls[0] && d[ks[0]] == e[ls[0]]
    requires ks[1..] == ls[1..] && forall k | k in ks[1..] :: d[k] == e[k]
    ensures ks == ls && forall k | k in ks :: d[k] == e[k]
  {
    assert ks == [ks[0]] + ks[1..] && ls == [ls[0]] + ls[1..];
  }

  lemma {:induction false} EntriesUnique(ks: seq<string>, d: Data, ls: seq<string>, e: Data)
    requires forall k | k in ks :: k in d && ColonFree(k)
    requires forall k | k in ls :: k in e && ColonFree(k)
    requires EntriesText(ks, d) + "]" == EntriesText(ls, e) + "]"
    ensures ks == ls && forall k | k in ks :: d[k] == e[k]
  {
    assert ks == [] <==> ls == [] by {
      EntriesNonempty(ks, d);
      EntriesNonempty(ls, e);
      assert |EntriesText(ks, d)| == |EntriesText(ls, e)|;
    }
    if ks != [] {
      assert ks[0] in ks && ls[0] in ls;
      assert EntryText(ks[0], d[ks[0]]) + Tail(ks, d) == EntryText(ls[0], e[ls[0]]) + Tail(ls, e) by {
        FirstEntry(ks, d);
        FirstEntry(ls, e);
      }
      EntryUnique(ks[0], d[ks[0]], Tail(ks, d), ls[0], e[ls[0]], Tail(ls, e));
      SameTails(ks, d, ls, e);
      if |ks| > 1 {
        EntriesUnique(ks[1..], d, ls[1..], e);
      }
      SameLists(ks, d, ls, e);
    }
  }

  lemma TextSuffix(d: Data)
    ensures |Text(d)| >= 4
    ensures Text(d)[4..] == EntriesText(SortedSeq(d.Keys), d) + "]"
  {
    var body := EntriesText(SortedSeq(d.Keys), d) + "]";
    assert Text(d) == "map[" + body;
  }

  lemma SameEntries(d: Data, e: Data, ks: seq<string>)
    requires forall k :: k in ks <==> k in d.Keys
    requires forall k :: k in ks <==> k in e.Keys
    requires forall k | k in ks :: d[k] == e[k]
    ensures d == e
  {
    assert d.Keys == e.Keys;
  }

  /** Equal text means equal content, whenever no key contains a colon. */
  lemma TextInjective(d: Data, e: Data)
    requires PrintableKeys(d) && PrintableKeys(e)
    requires Text(d) == Text(e)
    ensures d == e
  {
    var ks, ls := SortedSeq(d.Keys), SortedSeq(e.Keys);
    assert EntriesText(ks, d) + "]" == EntriesText(ls, e) + "]" by {
      TextSuffix(d);
      TextSuffix(e);
    }
    EntriesUnique(ks, d, ls, e);
    SameEntries(d, e, ks);
  }

  lemma OneKeyText(key: string, v: Bytes)
    ensures Text(map[key := v]) == "map[" + EntryText(key, v) + "]"
  {
    SortedSeqUnique([key], {key});
    var data: Data := map[key := v];
    assert data.Keys == {key};
  }

  lemma TwoKeysText(a: string, v: Bytes, b: string, w: Bytes)
    requires a != b && Leq(a, b)
    ensures Text(map[a := v, b := w]) == "map[" + (EntryText(a, v) + " " + EntryText(b, w)) + "]"
  {
    var data: Data := map[a := v, b := w];
    assert data.Keys == {a, b};
    assert IsOrder([a, b], {a, b}) && Sorted([a, b]);
    SortedSeqUnique([a, b], {a, b});
    assert [a, b][1..] == [b] && EntriesText([b], data) == EntryText(b, w);
    assert EntriesText([a, b], data) == EntryText(a, v) + " " + EntriesText([b], data);
  }

  /** Without that premise it does not: a key that spells out another entry, a space and a
      second key prints like the two entries it imitates. */
  lemma TextCollidesWithColon(a: string, v: Bytes, b: string, w: Bytes)
    requires a != b && Leq(a, b)
    ensures var one: Data := map[EntryText(a, v) + " " + b := w]; var two: Data := map[a := v, b := w]; one != two && Text(one) == Text(two)
  {
    var key := EntryText(a, v) + " " + b;
    var one: Data, two: Data := map[key := w], map[a := v, b := w];
    assert |key| > |a| && a in two && a !in one;
    OneKeyText(key, w);
    TwoKeysText(a, v, b, w);
    KeyImitates(EntryText(a, v) + " ", b, w);
  }

  lemma KeyImitates(prefix: string, b: string, w: Bytes)
    ensures EntryText(prefix + b, w) == prefix + EntryText(b, w)
  {
    Associate(prefix, b, ":");
    Associate(prefix, b + ":", "[" + ByteList(w) + "]");
  }

  /** The change test is exact: a recorded checksum of `old` silences `new` iff they are equal. */
  lemma ChangeTestExact(libs: Libs, name: string, old_: Data, new_: Data, prev: map<string, Bytes>)
    requires Injective(libs) && PrintableKeys(old_) && PrintableKeys(new_)
    requires name in prev && prev[name] == ChecksumOf(libs, old_)
    ensures ContentHasChanged(name, ChecksumOf(libs, new_), prev) <==> old_ != new_
  {
    if ChecksumOf(libs, new_) == ChecksumOf(libs, old_) {
      TextInjective(old_, new_);
    }
  }

  // ---- normalised key names ----

  /** Characters kept by the expression `[^\w\d-_.]`. */
  predicate InAlphabet(c: char) {
    'a' <= c <= 'z' || 'A' <= c <= 'Z' || '0' <= c <= '9' || c == '_' || c == '-' || c == '.'
  }

  lemma Lowercase(c: char)
    ensures c in "abcdefghijklmnopqrstuvwxyz" <==> 'a' <= c <= 'z'
  {
  }

  lemma Uppercase(c: char)
    ensures c in "ABCDEFGHIJKLMNOPQRSTUVWXYZ" <==> 'A' <= c <= 'Z'
  {
  }

  /** Letters, digits, underscore, dash and dot. */
  lemma AlphabetIs(c: char)
    ensures InAlphabet(c) <==>
            c in "abcdefghijklmnopqrstuvwxyz" || c in "ABCDEFGHIJKLMNOPQRSTUVWXYZ" || c in "0123456789" || c in "_-."
  {
    Lowercase(c);
    Uppercase(c);
  }

  /** normalizeK8sSecretName of the source. */
  function NormalizeK8sSecretName(name: string): (r: string)
    ensures |r| == |name|
    ensures forall i | 0 <= i < |r| :: InAlphabet(r[i]) && (r[i] == name[i] || (!InAlphabet(name[i]) && r[i] == '.'))
  {
    if name == "" then ""
    else [if InAlphabet(name[0]) then name[0] else '.'] + NormalizeK8sSecretName(name[1..])
  }

  /** Normal forms are exactly the names over the alphabet, so normalising twice changes nothing
      and a normalised name is always safe to print. */
  lemma {:induction false} NormalizeFixpoint(name: string)
    ensures NormalizeK8sSecretName(name) == name <==> forall c | c in name :: InAlphabet(c)
    ensures NormalizeK8sSecretName(NormalizeK8sSecretName(name)) == NormalizeK8sSecretName(name)
    ensures ColonFree(NormalizeK8sSecretName(name))
  {
    var r := NormalizeK8sSecretName(name);
    var rr := NormalizeK8sSecretName(r);
    assert rr == r;
    if forall c | c in name :: InAlphabet(c) {
      assert forall i | 0 <= i < |r| :: name[i] in name && r[i] == name[i];
      assert r == name;
    }
  }
}
