/** JSON Pointer (RFC 6901). */
module JsonPointer {
  // Local references: splitting, un-escaping and following a pointer.

  import opened Wrappers

  // -------------------------------------------------------------------- escaping

  /** Section 3 of RFC 6901: "~" is written "~0" and "/" is written "~1". */
  function Escape(token: string): string {
    if token == [] then ""
    else
      (if token[0] == '~' then "~0" else if token[0] == '/' then "~1" else [token[0]]) + Escape(token[1..])
  }

  /** Python's s.replace("~" + d, to): left to right, without overlap. */
  function Replace(s: string, d: char, to: char): string {
    if |s| < 2 then s
    else if s[0] == '~' && s[1] == d then [to] + Replace(s[2..], d, to)
    else [s[0]] + Replace(s[1..], d, to)
  }

  /** The two replacements in the order the code makes them. */
  function Unescape(part: string): string {
    Replace(Replace(part, '1', '/'), '0', '~')
  }

  /** Reading the escapes once, from the left. */
  function OnePass(s: string): string {
    if |s| < 2 then s
    else if s[0] == '~' && s[1] == '1' then "/" + OnePass(s[2..])
    else if s[0] == '~' && s[1] == '0' then "~" + OnePass(s[2..])
    else [s[0]] + OnePass(s[1..])
  }

  function Slashes(s: string): string {
    Replace(s, '1', '/')
  }

  lemma ReplaceHead(s: string, d: char, to: char)
    requires s != [] && !(|s| >= 2 && s[0] == '~' && s[1] == d)
    ensures Replace(s, d, to) == [s[0]] + Replace(s[1..], d, to)
  {
    if |s| == 1 {
      assert s[1..] == [] && s == [s[0]];
    }
  }

  /** The first pass leaves the first character alone unless it opens "~1". */
  lemma SlashesHead(s: string)
    requires s != []
    ensures Slashes(s) != []
    ensures Slashes(s)[0] == if |s| >= 2 && s[0] == '~' && s[1] == '1' then '/' else s[0]
  {
  }

  /** Replacing "~1" before "~0" is the same as reading every string's escapes once. */
  lemma {:induction false} TwoPassesAreOne(s: string)
    ensures Unescape(s) == OnePass(s)
  {
    if |s| >= 2 {
      if s[0] == '~' && s[1] == '1' {
        TwoPassesAreOne(s[2..]);
        Prefixed('/', Slashes(s[2..]));
      } else if s[0] == '~' && s[1] == '0' {
        TwoPassesAreOne(s[2..]);
        EscapedTilde(s);
      } else {
        TwoPassesAreOne(s[1..]);
        ReplaceHead(s, '1', '/');
        SlashesHead(s[1..]);
        var t := Slashes(s);
        assert t == [s[0]] + Slashes(s[1..]) && t[1..] == Slashes(s[1..]);
        ReplaceHead(t, '0', '~');
      }
    }
  }

  lemma Prefixed(c: char, rest: string)
    requires c != '~'
    ensures Replace([c] + rest, '0', '~') == [c] + Replace(rest, '0', '~')
  {
    var t := [c] + rest;
    assert t[0] == c && t[1..] == rest;
    ReplaceHead(t, '0', '~');
  }

  lemma EscapedTilde(s: string)
    requires |s| >= 2 && s[0] == '~' && s[1] == '0'
    ensures Unescape(s) == "~" + Unescape(s[2..])
  {
    ReplaceHead(s, '1', '/');
    ReplaceHead(s[1..], '1', '/');
    assert s[1..][1..] == s[2..];
    var t := Slashes(s);
    assert t == ['~'] + (['0'] + Slashes(s[2..]));
    assert t[0] == '~' && t[1] == '0' && t[2..] == Slashes(s[2..]);
  }

  lemma {:induction false} UnescapeEscape(token: string)
    ensures Unescape(Escape(token)) == token
  {
    TwoPassesAreOne(Escape(token));
    OnePassEscape(token);
  }

  lemma {:induction false} OnePassEscape(token: string)
    ensures OnePass(Escape(token)) == token
  {
    if token != [] {
      var e := Escape(token);
      OnePassEscape(token[1..]);
      if token[0] == '~' || token[0] == '/' {
        assert e[2..] == Escape(token[1..]);
      } else {
        assert e[1..] == Escape(token[1..]);
        assert token == [token[0]] + token[1..];
        assert |e| == 1 ==> Escape(token[1..]) == [] && token[1..] == [];
      }
    }
  }

  /** In the other order an escaped "~1" is lost: it turns into the separator. */
  lemma OtherOrderLoses()
    ensures Escape("~1") == "~01" && Unescape("~01") == "~1"
    ensures Replace(Replace("~01", '0', '~'), '1', '/') == "/"
  {
    var s := "~01";
    assert s[1..] == "01" && s[2..] == "1" && "01"[1..] == "1" && "1"[1..] == "";
    assert "~1"[1..] == "1" && "~1"[2..] == "";
    assert Escape("1") == "1";
    assert Replace("01", '1', '/') == "01" && Replace("1", '1', '/') == "1" && Replace(s, '1', '/') == "~01";
    assert Replace(s, '0', '~') == "~1";
    assert Replace("~1", '1', '/') == "/";
  }

  /** Every "~" opens an escape. */
  predicate WellEscaped(s: string) {
    s == [] ||
    (if s[0] == '~' then |s| >= 2 && (s[1] == '0' || s[1] == '1') && WellEscaped(s[2..])
     else s[0] != '/' && WellEscaped(s[1..]))
  }

  lemma {:induction false} EscapeIsWell(token: string)
    ensures WellEscaped(Escape(token))
  {
    if token != [] {
      EscapeIsWell(token[1..]);
      var e, width := Escape(token), if token[0] == '~' || token[0] == '/' then 2 else 1;
      assert e[width..] == Escape(token[1..]);
    }
  }

  /** Escaping what was read gives the reference back exactly when the reference was written by the
      rules; a stray "~" is read without complaint. */
  lemma EscapeUnescapeIff(s: string)
    ensures Escape(Unescape(s)) == s <==> WellEscaped(s)
  {
    TwoPassesAreOne(s);
    EscapeIsWell(OnePass(s));
    if WellEscaped(s) {
      EscapeOnePass(s);
    }
  }

  lemma {:induction false} EscapeOnePass(s: string)
    requires WellEscaped(s)
    ensures Escape(OnePass(s)) == s
  {
    if s != [] {
      var width := if s[0] == '~' then 2 else 1;
      EscapeOnePass(s[width..]);
      var t := OnePass(s);
      assert t == [if s[0] != '~' then s[0] else if s[1] == '1' then '/' else '~'] + OnePass(s[width..]);
      assert t[1..] == OnePass(s[width..]);
      assert s == s[..width] + s[width..];
    }
  }

  // ------------------------------------------------------------------- splitting

  /** Python's s.split("/"). */
  function Split(s: string): (parts: seq<string>)
    ensures parts != []
  {
    if s == [] then [""]
    else
      var rest := Split(s[1..]);
      if s[0] == '/' then [""] + rest else [[s[0]] + rest[0]] + rest[1..]
  }

  function JoinSlash(parts: seq<string>): string
    requires parts != []
  {
    if |parts| == 1 then parts[0] else parts[0] + "/" + JoinSlash(parts[1..])
  }

  lemma {:induction false} SplitFirst(part: string, rest: string)
    requires '/' !in part
    ensures Split(part + "/" + rest) == [part] + Split(rest)
  {
    var s := part + "/" + rest;
    if part == [] {
      assert s[1..] == rest;
    } else {
      assert s[1..] == part[1..] + "/" + rest;
      SplitFirst(part[1..], rest);
      assert [part[0]] + part[1..] == part;
    }
  }

  lemma {:induction false} SplitOne(part: string)
    requires '/' !in part
    ensures Split(part) == [part]
  {
    if part != [] {
      SplitOne(part[1..]);
      assert [part[0]] + part[1..] == part;
    }
  }

  lemma {:induction false} SplitJoin(parts: seq<string>)
    requires parts != [] && forall p | p in parts :: '/' !in p
    ensures Split(JoinSlash(parts)) == parts
  {
    if |parts| == 1 {
      SplitOne(parts[0]);
    } else {
      SplitJoin(parts[1..]);
      SplitFirst(parts[0], JoinSlash(parts[1..]));
    }
  }

  lemma {:induction false} NoSlashEscaped(token: string)
    ensures '/' !in Escape(token)
  {
    if token != [] {
      NoSlashEscaped(token[1..]);
    }
  }

  function EscapeAll(tokens: seq<string>): seq<string> {
    seq(|tokens|, i requires 0 <= i < |tokens| => Escape(tokens[i]))
  }

  function UnescapeAll(parts: seq<string>): seq<string> {
    seq(|parts|, i requires 0 <= i < |parts| => Unescape(parts[i]))
  }

  function Pointer(tokens: seq<string>): string
    requires tokens != []
  {
    "#/" + JoinSlash(EscapeAll(tokens))
  }

  /** For every non-empty list of tokens, splitting and un-escaping its pointer gives the list back. */
  lemma PointerRoundTrip(tokens: seq<string>)
    requires tokens != []
    ensures UnescapeAll(Split(Pointer(tokens)[2..])) == tokens
  {
    var parts := EscapeAll(tokens);
    forall p | p in parts ensures '/' !in p {
      var i :| 0 <= i < |parts| && parts[i] == p;
      NoSlashEscaped(tokens[i]);
    }
    SplitJoin(parts);
    assert Pointer(tokens)[2..] == JoinSlash(parts);
    forall i | 0 <= i < |tokens| ensures Unescape(parts[i]) == tokens[i] {
      UnescapeEscape(tokens[i]);
    }
  }

  // ------------------------------------------------------------------- following

  datatype Value = Object(members: map<string, Value>) | List(elements: seq<Value>) | Scalar(id: int)

  datatype Result = Found(value: Value) | NotLocal | Missing

  /** A string subscript works on objects only; on anything else, or for an absent member, it raises. */
  function Walk(v: Value, tokens: seq<string>): Result
    decreases |tokens|
  {
    if tokens == [] then Found(v)
    else if v.Object? && tokens[0] in v.members then Walk(v.members[tokens[0]], tokens[1..])
    else Missing
  }

  method ResolvePointer(document: Value, pointer: string) returns (r: Result)
    ensures r ==
      if "#/" <= pointer then Walk(document, UnescapeAll(Split(pointer[2..]))) else NotLocal
  {
    if !("#/" <= pointer) {
      return NotLocal;
    }
    var value := document;
    var parts := Split(pointer[2..]);
    ghost var tokens := UnescapeAll(parts);
    for i := 0 to |parts|
      invariant Walk(value, tokens[i..]) == Walk(document, tokens)
    {
      var token := Unescape(parts[i]);
      assert tokens[i..][0] == token && tokens[i..][1..] == tokens[i + 1..];
      if !value.Object? || token !in value.members {
        return Missing;
      }
      value := value.members[token];
    }
    r := Found(value);
  }

  /** Following the pointer written for a path follows that path, in every document. */
  lemma PointerFollowsPath(document: Value, tokens: seq<string>)
    requires tokens != []
    ensures "#/" <= Pointer(tokens)
    ensures Walk(document, UnescapeAll(Split(Pointer(tokens)[2..]))) == Walk(document, tokens)
  {
    PointerRoundTrip(tokens);
  }
}
