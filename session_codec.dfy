/** The text under which the signed-in user is kept in browser storage:
    `JSON.stringify` of `{ name, roles }` and the `JSON.parse` that reads it
    back, for the part of JSON these values use. */
module SessionCodec {
  import opened Wrappers

  /** The session's user (`interface User` of the auth context). `roles` is
      `None` when the stored object has no `roles` property. */
  datatype SessionUser = SessionUser(name: string, roles: Option<seq<string>>)

  /** What `JSON.parse` yields: the user object, `null`, or an exception. */
  datatype Parsed = Malformed | Null | Value(user: SessionUser)

  /** The body of a JSON string literal: `"` and `\` are escaped with `\`. */
  function Escape(s: string): string {
    if |s| == 0 then ""
    else (if s[0] == '"' || s[0] == '\\' then ['\\', s[0]] else [s[0]]) + Escape(s[1..])
  }

  function Quote(s: string): string {
    "\"" + Escape(s) + "\""
  }

  /** Reads a string body up to its closing quote; returns the decoded text
      and what follows the quote. */
  function ReadBody(t: string): (r: Option<(string, string)>)
    ensures r.Some? ==> |r.value.1| < |t|
  {
    if |t| == 0 then None
    else if t[0] == '"' then Some(("", t[1..]))
    else if t[0] == '\\' then
      if |t| < 2 then None
      else match ReadBody(t[2..])
           case None => None
           case Some(p) => Some(([t[1]] + p.0, p.1))
    else match ReadBody(t[1..])
         case None => None
         case Some(p) => Some(([t[0]] + p.0, p.1))
  }

  /** Reads one string literal at the start of `t`. */
  function ReadString(t: string): (r: Option<(string, string)>)
    ensures r.Some? ==> |r.value.1| < |t|
  {
    if |t| > 0 && t[0] == '"' then ReadBody(t[1..]) else None
  }

  /** The elements of a JSON array of strings, comma separated. */
  function Items(rs: seq<string>): string {
    if |rs| == 0 then ""
    else if |rs| == 1 then Quote(rs[0])
    else Quote(rs[0]) + "," + Items(rs[1..])
  }

  /** Reads comma-separated string literals up to and including the closing `]`. */
  function ReadItems(t: string): Option<(seq<string>, string)>
    decreases |t|
  {
    match ReadString(t)
    case None => None
    case Some(p) =>
      var rest := p.1;
      if |rest| > 0 && rest[0] == ',' then
        match ReadItems(rest[1..])
        case None => None
        case Some(q) => Some(([p.0] + q.0, q.1))
      else if |rest| > 0 && rest[0] == ']' then Some(([p.0], rest[1..]))
      else None
  }

  /** Reads the rest of an array after its `[`. */
  function ReadList(t: string): Option<(seq<string>, string)> {
    if |t| > 0 && t[0] == ']' then Some(([], t[1..])) else ReadItems(t)
  }

  const NameKey: string := "{\"name\":"
  const RolesKey: string := ",\"roles\":["

  /** `JSON.stringify(user)`; an absent `roles` property is not written. */
  function Stringify(u: SessionUser): string {
    NameKey + Quote(u.name) +
    (match u.roles
     case None => ""
     case Some(rs) => RolesKey + Items(rs) + "]") +
    "}"
  }

  /** `JSON.parse(text)` for the texts of this shape; any other text throws. */
  function Parse(t: string): Parsed {
    if t == "null" then Null
    else if |t| < |NameKey| || t[..|NameKey|] != NameKey then Malformed
    else match ReadString(t[|NameKey|..])
      case None => Malformed
      case Some(p) =>
        var rest := p.1;
        if rest == "}" then Value(SessionUser(p.0, None))
        else if |rest| < |RolesKey| || rest[..|RolesKey|] != RolesKey then Malformed
        else match ReadList(rest[|RolesKey|..])
          case None => Malformed
          case Some(q) => if q.1 == "}" then Value(SessionUser(p.0, Some(q.0))) else Malformed
  }

  lemma {:induction false} ReadEscaped(s: string, rest: string)
    ensures ReadBody(Escape(s) + "\"" + rest) == Some((s, rest))
  {
    if |s| > 0 {
      var t := Escape(s) + "\"" + rest;
      ReadEscaped(s[1..], rest);
      assert [s[0]] + s[1..] == s;
      if s[0] == '"' || s[0] == '\\' {
        assert t[0] == '\\' && t[1] == s[0];
        assert t[2..] == Escape(s[1..]) + "\"" + rest;
      } else {
        assert t[0] == s[0];
        assert t[1..] == Escape(s[1..]) + "\"" + rest;
      }
    }
  }

  /** A quoted string reads back as itself. */
  lemma ReadQuoted(s: string, rest: string)
    ensures ReadString(Quote(s) + rest) == Some((s, rest))
  {
    assert (Quote(s) + rest)[1..] == Escape(s) + "\"" + rest;
    ReadEscaped(s, rest);
  }

  lemma {:induction false} ReadItemsBack(rs: seq<string>, rest: string)
    requires |rs| > 0
    ensures ReadItems(Items(rs) + "]" + rest) == Some((rs, rest))
  {
    if |rs| == 1 {
      var tail := "]" + rest;
      assert Items(rs) + "]" + rest == Quote(rs[0]) + tail;
      ReadQuoted(rs[0], tail);
      assert tail[0] == ']' && tail[1..] == rest;
      assert [rs[0]] == rs;
    } else {
      var tail := "," + (Items(rs[1..]) + "]" + rest);
      assert Items(rs) + "]" + rest == Quote(rs[0]) + tail;
      ReadQuoted(rs[0], tail);
      assert tail[0] == ',' && tail[1..] == Items(rs[1..]) + "]" + rest;
      ReadItemsBack(rs[1..], rest);
      assert [rs[0]] + rs[1..] == rs;
    }
  }

  /** The role list reads back as itself. */
  lemma ReadListBack(rs: seq<string>, rest: string)
    ensures ReadList(Items(rs) + "]" + rest) == Some((rs, rest))
  {
    if |rs| == 0 {
      assert Items(rs) + "]" + rest == "]" + rest;
    } else {
      ReadItemsBack(rs, rest);
      assert (Items(rs) + "]" + rest)[0] == '"';
    }
  }

  /** A concatenation splits back at the length of its first part. */
  lemma Split(a: string, b: string)
    ensures |a + b| >= |a| && (a + b)[..|a|] == a && (a + b)[|a|..] == b
  {
  }

  /** Parsing what `login` stored gives back the same user. */
  lemma ParseStringify(u: SessionUser)
    ensures Parse(Stringify(u)) == Value(u)
  {
    var t := Stringify(u);
    var tail := match u.roles case None => "}" case Some(rs) => RolesKey + (Items(rs) + "]" + "}");
    assert t == NameKey + (Quote(u.name) + tail);
    Split(NameKey, Quote(u.name) + tail);
    ReadQuoted(u.name, tail);
    assert tail != "null";
    match u.roles
    case None =>
    case Some(rs) =>
      Split(RolesKey, Items(rs) + "]" + "}");
      assert tail != "}";
      ReadListBack(rs, "}");
  }

  /** Distinct users are stored under distinct texts. */
  lemma StringifyInjective(u: SessionUser, v: SessionUser)
    ensures Stringify(u) == Stringify(v) ==> u == v
  {
    ParseStringify(u);
    ParseStringify(v);
  }
}
