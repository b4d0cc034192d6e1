/**
 * The query string as a `URLSearchParams` list (section 6.2 of the WHATWG URL
 * Standard): an ordered list of name/value pairs where a name may repeat.
 * Also the `application/x-www-form-urlencoded` serializer and parser
 * (section 5 of the same standard) used for the nested `filters` value.
 * Percent-encoding is modelled for ASCII characters only: the serializer
 * escapes every ASCII character outside `[A-Za-z0-9*-._]` as `%XX` (space as
 * `+`) and leaves other characters as they are; the parser undoes `+` and the
 * `%XX` sequences below 0x80 and keeps everything else literally.
 */
module SearchParams {
  import opened Wrappers

  datatype Param = Param(name: string, value: string)

  predicate HasName(ps: seq<Param>, name: string) {
    exists i :: 0 <= i < |ps| && ps[i].name == name
  }

  /** `params.get(name)`: the value of the first pair with that name. */
  function Get(ps: seq<Param>, name: string): (o: Option<string>)
    ensures o.None? <==> !HasName(ps, name)
  {
    if ps == [] then None
    else if ps[0].name == name then Some(ps[0].value)
    else
      assert HasName(ps, name) <==> HasName(ps[1..], name) by {
        if HasName(ps[1..], name) {
          var i :| 0 <= i < |ps[1..]| && ps[1..][i].name == name;
          assert ps[i + 1].name == name;
        }
        if HasName(ps, name) {
          var i :| 0 <= i < |ps| && ps[i].name == name;
          assert ps[1..][i - 1].name == name;
        }
      }
      Get(ps[1..], name)
  }

  /** `params.delete(name)`: every pair with that name goes. */
  function Delete(ps: seq<Param>, name: string): (r: seq<Param>)
    ensures forall i :: 0 <= i < |r| ==> r[i].name != name
  {
    if ps == [] then []
    else if ps[0].name == name then Delete(ps[1..], name)
    else [ps[0]] + Delete(ps[1..], name)
  }

  /**
   * `params.set(name, value)`: the first pair with that name takes the value
   * and the others with that name go; without one, the pair is appended.
   */
  function Set(ps: seq<Param>, name: string, value: string): seq<Param> {
    if Get(ps, name).None? then ps + [Param(name, value)] else SetFirst(ps, name, value)
  }

  function SetFirst(ps: seq<Param>, name: string, value: string): seq<Param> {
    if ps == [] then []
    else if ps[0].name == name then [Param(name, value)] + Delete(ps[1..], name)
    else [ps[0]] + SetFirst(ps[1..], name, value)
  }

  /** The number of pairs with a name. */
  function Count(ps: seq<Param>, name: string): nat {
    if ps == [] then 0 else (if ps[0].name == name then 1 else 0) + Count(ps[1..], name)
  }

  // ---------------------------------------------------------------------
  // Facts about get, set and delete.

  lemma {:induction false} DeleteGet(ps: seq<Param>, name: string, other: string)
    ensures Get(Delete(ps, name), other) == if other == name then None else Get(ps, other)
  {
    if ps != [] {
      DeleteGet(ps[1..], name, other);
    }
  }

  lemma {:induction false} DeleteCount(ps: seq<Param>, name: string)
    ensures Count(Delete(ps, name), name) == 0
  {
    if ps != [] {
      DeleteCount(ps[1..], name);
    }
  }

  lemma {:induction false} DeleteAbsent(ps: seq<Param>, name: string)
    requires Get(ps, name).None?
    ensures Delete(ps, name) == ps
  {
    if ps != [] {
      DeleteAbsent(ps[1..], name);
    }
  }

  lemma {:induction false} DeleteIdempotent(ps: seq<Param>, name: string)
    ensures Delete(Delete(ps, name), name) == Delete(ps, name)
  {
    DeleteGet(ps, name, name);
    DeleteAbsent(Delete(ps, name), name);
  }

  lemma {:induction false} DeleteCommutes(ps: seq<Param>, a: string, b: string)
    ensures Delete(Delete(ps, a), b) == Delete(Delete(ps, b), a)
  {
    if ps != [] {
      DeleteCommutes(ps[1..], a, b);
    }
  }

  lemma {:induction false} SetFirstGet(ps: seq<Param>, name: string, value: string, other: string)
    ensures Get(SetFirst(ps, name, value), other) ==
            if other == name && Get(ps, name).Some? then Some(value) else Get(ps, other)
  {
    if ps != [] {
      if ps[0].name == name {
        DeleteGet(ps[1..], name, other);
      } else {
        SetFirstGet(ps[1..], name, value, other);
      }
    }
  }

  /** After `set`, `get` of that name gives the value and every other name is as before. */
  lemma SetGet(ps: seq<Param>, name: string, value: string, other: string)
    ensures Get(Set(ps, name, value), other) == if other == name then Some(value) else Get(ps, other)
  {
    if Get(ps, name).None? {
      AppendGet(ps, Param(name, value), other);
    } else {
      SetFirstGet(ps, name, value, other);
    }
  }

  lemma {:induction false} AppendGet(ps: seq<Param>, p: Param, other: string)
    ensures Get(ps + [p], other) == if Get(ps, other).Some? then Get(ps, other)
                                    else if p.name == other then Some(p.value) else None
  {
    if ps != [] {
      assert (ps + [p])[1..] == ps[1..] + [p];
      AppendGet(ps[1..], p, other);
    }
  }

  lemma {:induction false} SetFirstCount(ps: seq<Param>, name: string, value: string)
    requires Get(ps, name).Some?
    ensures Count(SetFirst(ps, name, value), name) == 1
  {
    if ps[0].name == name {
      DeleteCount(ps[1..], name);
    } else {
      SetFirstCount(ps[1..], name, value);
    }
  }

  lemma {:induction false} AppendCount(ps: seq<Param>, p: Param, name: string)
    ensures Count(ps + [p], name) == Count(ps, name) + (if p.name == name then 1 else 0)
  {
    if ps != [] {
      assert (ps + [p])[1..] == ps[1..] + [p];
      AppendCount(ps[1..], p, name);
    }
  }

  lemma {:induction false} AbsentCount(ps: seq<Param>, name: string)
    requires Get(ps, name).None?
    ensures Count(ps, name) == 0
  {
    if ps != [] {
      AbsentCount(ps[1..], name);
    }
  }

  /** After `set`, exactly one pair carries the name. */
  lemma SetCount(ps: seq<Param>, name: string, value: string)
    ensures Count(Set(ps, name, value), name) == 1
  {
    if Get(ps, name).None? {
      AbsentCount(ps, name);
      AppendCount(ps, Param(name, value), name);
    } else {
      SetFirstCount(ps, name, value);
    }
  }

  lemma {:induction false} SetFirstDelete(ps: seq<Param>, name: string, value: string)
    ensures Delete(SetFirst(ps, name, value), name) == Delete(ps, name)
  {
    if ps != [] {
      if ps[0].name == name {
        DeleteIdempotent(ps[1..], name);
      } else {
        SetFirstDelete(ps[1..], name, value);
      }
    }
  }

  lemma {:induction false} AppendDelete(ps: seq<Param>, p: Param, name: string)
    ensures Delete(ps + [p], name) == Delete(ps, name) + (if p.name == name then [] else [p])
  {
    if ps != [] {
      assert (ps + [p])[1..] == ps[1..] + [p];
      AppendDelete(ps[1..], p, name);
    }
  }

  /** `set` touches only pairs with its own name: deleting that name undoes it. */
  lemma SetDelete(ps: seq<Param>, name: string, value: string)
    ensures Delete(Set(ps, name, value), name) == Delete(ps, name)
  {
    if Get(ps, name).None? {
      AppendDelete(ps, Param(name, value), name);
    } else {
      SetFirstDelete(ps, name, value);
    }
  }

  /** A pair list in which `name` occurs once, with `value`, is left as it is by `set`. */
  lemma {:induction false} SetFixed(ps: seq<Param>, name: string, value: string)
    requires Count(ps, name) == 1 && Get(ps, name) == Some(value)
    ensures Set(ps, name, value) == ps
  {
    SetFirstFixed(ps, name, value);
  }

  lemma {:induction false} SetFirstFixed(ps: seq<Param>, name: string, value: string)
    requires Count(ps, name) == 1 && Get(ps, name) == Some(value)
    ensures SetFirst(ps, name, value) == ps
  {
    if ps[0].name == name {
      assert Count(ps[1..], name) == 0;
      ZeroCountAbsent(ps[1..], name);
      DeleteAbsent(ps[1..], name);
    } else {
      SetFirstFixed(ps[1..], name, value);
    }
  }

  lemma {:induction false} ZeroCountAbsent(ps: seq<Param>, name: string)
    requires Count(ps, name) == 0
    ensures Get(ps, name).None?
  {
    if ps != [] {
      ZeroCountAbsent(ps[1..], name);
    }
  }

  lemma {:induction false} SetFirstOtherCount(ps: seq<Param>, name: string, value: string, other: string)
    requires other != name
    ensures Count(SetFirst(ps, name, value), other) == Count(ps, other)
  {
    if ps != [] {
      if ps[0].name == name {
        DeleteOtherCount(ps[1..], name, other);
      } else {
        SetFirstOtherCount(ps[1..], name, value, other);
      }
    }
  }

  lemma {:induction false} DeleteOtherCount(ps: seq<Param>, name: string, other: string)
    requires other != name
    ensures Count(Delete(ps, name), other) == Count(ps, other)
  {
    if ps != [] {
      DeleteOtherCount(ps[1..], name, other);
    }
  }

  /** `set` leaves the number of pairs with any other name as it was. */
  lemma SetOtherCount(ps: seq<Param>, name: string, value: string, other: string)
    requires other != name
    ensures Count(Set(ps, name, value), other) == Count(ps, other)
  {
    if Get(ps, name).None? {
      AppendCount(ps, Param(name, value), other);
    } else {
      SetFirstOtherCount(ps, name, value, other);
    }
  }

  // ---------------------------------------------------------------------
  // application/x-www-form-urlencoded.

  predicate IsAsciiAlnum(c: char) {
    ('0' <= c <= '9') || ('A' <= c <= 'Z') || ('a' <= c <= 'z')
  }

  /** Characters the serializer writes as they are. */
  predicate Passes(c: char) {
    IsAsciiAlnum(c) || c == '*' || c == '-' || c == '.' || c == '_' || c as int >= 0x80
  }

  function HexDigit(d: nat): (c: char)
    requires d < 16
    ensures IsHex(c)
  {
    if d < 10 then (('0' as int) + d) as char else (('A' as int) + d - 10) as char
  }

  predicate IsHex(c: char) {
    ('0' <= c <= '9') || ('A' <= c <= 'F') || ('a' <= c <= 'f')
  }

  function HexValue(c: char): (d: nat)
    requires IsHex(c)
    ensures d < 16
  {
    if '0' <= c <= '9' then (c as int) - ('0' as int)
    else if 'A' <= c <= 'F' then (c as int) - ('A' as int) + 10
    else (c as int) - ('a' as int) + 10
  }

  function EscapeChar(c: char): (s: string)
    ensures '&' !in s && '=' !in s && '?' !in s
  {
    if Passes(c) then [c]
    else if c == ' ' then "+"
    else "%" + [HexDigit(c as int / 16), HexDigit(c as int % 16)]
  }

  /** The serializer's percent-encoding of one name or value. */
  function Escape(s: string): (r: string)
    ensures '&' !in r && '=' !in r && '?' !in r
  {
    if s == [] then [] else EscapeChar(s[0]) + Escape(s[1..])
  }

  /** The parser's percent-decoding of one name or value (`+` is a space). */
  function Unescape(s: string): string {
    if s == [] then []
    else if s[0] == '+' then " " + Unescape(s[1..])
    else if s[0] == '%' && |s| >= 3 && IsHex(s[1]) && IsHex(s[2]) && HexValue(s[1]) < 8 then
      [(HexValue(s[1]) * 16 + HexValue(s[2])) as char] + Unescape(s[3..])
    else [s[0]] + Unescape(s[1..])
  }

  lemma UnescapeChar(c: char, rest: string)
    ensures Unescape(EscapeChar(c) + rest) == [c] + Unescape(rest)
  {
    var e := EscapeChar(c) + rest;
    if Passes(c) {
      assert e[1..] == rest;
    } else if c == ' ' {
      assert e[1..] == rest;
    } else {
      var hi, lo := c as int / 16, c as int % 16;
      assert HexValue(HexDigit(hi)) == hi && HexValue(HexDigit(lo)) == lo;
      assert e[3..] == rest;
    }
  }

  /** Decoding undoes encoding, for every string. */
  lemma {:induction false} UnescapeEscape(s: string)
    ensures Unescape(Escape(s)) == s
  {
    if s != [] {
      UnescapeChar(s[0], Escape(s[1..]));
      UnescapeEscape(s[1..]);
    }
  }

  function SerializePair(p: Param): string {
    Escape(p.name) + "=" + Escape(p.value)
  }

  /** `new URLSearchParams(pairs).toString()`. */
  function Serialize(ps: seq<Param>): string {
    if ps == [] then ""
    else if |ps| == 1 then SerializePair(ps[0])
    else SerializePair(ps[0]) + "&" + Serialize(ps[1..])
  }

  /** The position of the first `c` in `s`, or `|s|` when there is none. */
  function IndexOf(s: string, c: char): (i: nat)
    ensures i <= |s|
    ensures forall j :: 0 <= j < i ==> s[j] != c
    ensures i < |s| ==> s[i] == c
  {
    if s == [] then 0 else if s[0] == c then 0 else 1 + IndexOf(s[1..], c)
  }

  /** One `name=value` sequence: split at the first `=`; without one the value is empty. */
  function ParsePair(piece: string): Param {
    var i := IndexOf(piece, '=');
    if i < |piece| then Param(Unescape(piece[..i]), Unescape(piece[i + 1..]))
    else Param(Unescape(piece), "")
  }

  /** `new URLSearchParams(s)`: split on `&`, skip empty sequences, parse each. */
  function Parse(s: string): seq<Param>
    decreases |s|
  {
    var i := IndexOf(s, '&');
    var head := if s[..i] == [] then [] else [ParsePair(s[..i])];
    if i < |s| then head + Parse(s[i + 1..]) else head
  }

  /**
   * `new URLSearchParams(s)` for a string argument: one leading `?` is
   * dropped before the rest is parsed.
   */
  function FromString(s: string): (ps: seq<Param>)
  {
    if |s| > 0 && s[0] == '?' then Parse(s[1..]) else Parse(s)
  }

  /** A lone `?` holds no pairs. */
  lemma FromStringQuestionMark()
    ensures FromString("?") == []
  {
    var s := "?";
    assert s[1..] == [];
  }

  /** A query string copied with its leading `?` reads as the text after it. */
  lemma FromStringDropsMark(s: string)
    ensures FromString("?" + s) == Parse(s)
  {
    assert ("?" + s)[1..] == s;
  }

  /** Serialized text never starts with `?`, since the serializer escapes it. */
  lemma SerializeHead(ps: seq<Param>)
    ensures |Serialize(ps)| == 0 || Serialize(ps)[0] != '?'
  {
    if ps != [] {
      var n := Escape(ps[0].name);
      var first := SerializePair(ps[0]);
      assert first == n + "=" + Escape(ps[0].value);
      if |n| > 0 {
        assert first[0] == n[0];
        assert n[0] in n;
      } else {
        assert first[0] == '=';
      }
      assert Serialize(ps)[0] == first[0] by {
        if |ps| > 1 {
          assert Serialize(ps) == first + "&" + Serialize(ps[1..]);
        }
      }
    }
  }

  /** Reading back what the serializer wrote, through the string constructor, gives the same pairs. */
  lemma FromStringSerialize(ps: seq<Param>)
    ensures FromString(Serialize(ps)) == ps
  {
    SerializeHead(ps);
    ParseSerialize(ps);
  }

  lemma ParseSerializePair(p: Param)
    ensures ParsePair(SerializePair(p)) == p
  {
    var n := Escape(p.name);
    var s := SerializePair(p);
    var i := IndexOf(s, '=');
    assert s[|n|] == '=';
    assert forall j :: 0 <= j < |n| ==> s[j] == n[j];
    assert i == |n|;
    assert s[..i] == n;
    assert s[i + 1..] == Escape(p.value);
    UnescapeEscape(p.name);
    UnescapeEscape(p.value);
  }

  /** Parsing what the serializer wrote gives back the same pairs in the same order. */
  lemma {:induction false} ParseSerialize(ps: seq<Param>)
    ensures Parse(Serialize(ps)) == ps
  {
    if ps != [] {
      var first := SerializePair(ps[0]);
      assert '&' !in first;
      assert |first| > 0 by { assert first[|Escape(ps[0].name)|] == '='; }
      ParseSerializePair(ps[0]);
      var s := Serialize(ps);
      if |ps| == 1 {
        assert IndexOf(s, '&') == |s|;
        assert s[..|s|] == s;
      } else {
        var rest := Serialize(ps[1..]);
        assert s == first + "&" + rest;
        assert forall j :: 0 <= j < |first| ==> s[j] == first[j];
        assert s[|first|] == '&';
        assert IndexOf(s, '&') == |first|;
        assert s[..|first|] == first;
        assert s[|first| + 1..] == rest;
        ParseSerialize(ps[1..]);
      }
    }
  }
}
