/** JSON Pointers: nodepkg/codemirror/src/json/JSONPointer.ts and RFC 6901, sections 3 and 4. */
module JsonPointer {
  import opened Wrappers
  import opened Text

  type Path = seq<string>

  /** `str.replace(/c/g, replacement)` for a single-character pattern. */
  function ReplaceChar(s: string, c: char, replacement: string): string {
    if s == "" then "" else (if s[0] == c then replacement else [s[0]]) + ReplaceChar(s[1..], c, replacement)
  }

  /** `str.replace(/ab/g, replacement)` for a two-character pattern, left to right without overlap. */
  function ReplacePair(s: string, a: char, b: char, replacement: string): string {
    if |s| < 2 then s
    else if s[0] == a && s[1] == b then replacement + ReplacePair(s[2..], a, b, replacement)
    else [s[0]] + ReplacePair(s[1..], a, b, replacement)
  }

  function Escape(s: string): string {
    ReplaceChar(ReplaceChar(s, '~', "~0"), '/', "~1")
  }

  function Unescape(s: string): string {
    ReplacePair(ReplacePair(s, '~', '1', "/"), '~', '0', "~")
  }

  function Compile(keyPath: Path): string {
    if |keyPath| == 0 then ""
    else "/" + Join(seq(|keyPath|, i requires 0 <= i < |keyPath| => Escape(keyPath[i])), "/")
  }

  /** `None` is the thrown "Invalid JSON pointer". */
  function Parse(pointer: string): Option<Path> {
    if pointer == "" then Some([])
    else if pointer[0] != '/' then None
    else
      var tokens := Split(pointer[1..], '/');
      Some(seq(|tokens|, i requires 0 <= i < |tokens| => Unescape(tokens[i])))
  }

  // ------------------------------------------------------- one reference token

  /** The escaped form of RFC 6901, section 3: `~` only as `~0` or `~1`, and no `/`. */
  predicate ValidToken(t: string) {
    t == "" ||
    if t[0] == '~' then |t| >= 2 && t[1] in "01" && ValidToken(t[2..])
    else t[0] != '/' && ValidToken(t[1..])
  }

  /** The escaping of one character at a time. */
  lemma EscapeStep(s: string)
    requires s != ""
    ensures Escape(s) ==
      (if s[0] == '~' then "~0" else if s[0] == '/' then "~1" else [s[0]]) + Escape(s[1..])
  {
    var rest := ReplaceChar(s[1..], '~', "~0");
    if s[0] == '~' {
      var t := "~0" + rest;
      assert t[1..] == "0" + rest && t[1..][1..] == rest;
      assert ReplaceChar(t[1..], '/', "~1") == "0" + ReplaceChar(rest, '/', "~1");
    } else {
      var t := [s[0]] + rest;
      assert t[1..] == rest;
    }
  }

  lemma {:induction false} EscapeIsValid(s: string)
    ensures ValidToken(Escape(s)) && Free(Escape(s), '/')
  {
    if s == "" {
    } else {
      EscapeStep(s);
      EscapeIsValid(s[1..]);
      if s[0] == '~' || s[0] == '/' {
        assert Escape(s)[2..] == Escape(s[1..]);
      } else {
        assert Escape(s)[1..] == Escape(s[1..]);
      }
    }
  }

  /** Undoing `~1` first leaves the tildes doubled, so no new `~1` can appear. */
  lemma {:induction false} SlashesRestored(s: string)
    ensures ReplacePair(Escape(s), '~', '1', "/") == ReplaceChar(s, '~', "~0")
  {
    if s == "" {
    } else {
      EscapeStep(s);
      SlashesRestored(s[1..]);
      var e, rest := Escape(s), Escape(s[1..]);
      if s[0] == '~' {
        assert e[1..] == "0" + rest;
        assert (if |e[1..]| >= 2 then ReplacePair(e[1..], '~', '1', "/") else e[1..])
          == "0" + ReplacePair(rest, '~', '1', "/") by {
          if rest != "" { assert e[1..][1..] == rest; }
        }
      } else if s[0] == '/' {
        assert e[2..] == rest;
      } else if rest != "" {
        assert e[1..] == rest;
      }
    }
  }

  lemma {:induction false} TildesRestored(s: string)
    ensures ReplacePair(ReplaceChar(s, '~', "~0"), '~', '0', "~") == s
  {
    if s == "" {
    } else {
      TildesRestored(s[1..]);
      var e, rest := ReplaceChar(s, '~', "~0"), ReplaceChar(s[1..], '~', "~0");
      if s[0] == '~' {
        assert e[2..] == rest;
      } else if rest != "" {
        assert e[1..] == rest;
      }
      assert s == [s[0]] + s[1..];
    }
  }

  lemma UnescapeOfEscape(s: string)
    ensures Unescape(Escape(s)) == s
  {
    SlashesRestored(s);
    TildesRestored(s);
  }

  /** Undoing `~0` before `~1`, the order RFC 6901 section 4 warns against, would not do. */
  lemma ReverseOrderFails()
    ensures var s := "~1"; ReplacePair(ReplacePair(Escape(s), '~', '0', "~"), '~', '1', "/") != s
  {
    assert ReplaceChar("~1", '~', "~0") == "~01" by {
      assert "~1"[1..] == "1";
    }
    assert "~01"[1..] == "01" && "01"[1..] == "1" && "~01"[2..] == "1";
    assert Escape("~1") == "~01";
    assert ReplacePair("~01", '~', '0', "~") == "~1";
    assert "~1"[2..] == "";
    assert ReplacePair("~1", '~', '1', "/") == "/";
  }

  function Decode(t: string): string
    requires ValidToken(t)
  {
    if t == "" then ""
    else if t[0] == '~' then [if t[1] == '0' then '~' else '/'] + Decode(t[2..])
    else [t[0]] + Decode(t[1..])
  }

  lemma {:induction false} EscapeOfDecode(t: string)
    requires ValidToken(t)
    ensures Escape(Decode(t)) == t
  {
    if t == "" {
    } else {
      var d := Decode(t);
      EscapeStep(d);
      if t[0] == '~' {
        EscapeOfDecode(t[2..]);
        assert d[1..] == Decode(t[2..]);
        assert t == t[..2] + t[2..];
      } else {
        EscapeOfDecode(t[1..]);
        assert d[1..] == Decode(t[1..]);
        assert t == [t[0]] + t[1..];
      }
    }
  }

  /** Escaping undoes unescaping exactly on well-formed tokens. */
  lemma EscapeOfUnescape(t: string)
    ensures Escape(Unescape(t)) == t <==> ValidToken(t)
  {
    EscapeIsValid(Unescape(t));
    if ValidToken(t) {
      EscapeOfDecode(t);
      UnescapeOfEscape(Decode(t));
    }
  }

  // ------------------------------------------------------------ whole pointers

  predicate ValidPointer(s: string) {
    s == "" ||
    (s[0] == '/' && forall i | 0 <= i < |Split(s[1..], '/')| :: ValidToken(Split(s[1..], '/')[i]))
  }

  /** `parse` undoes `compile` on every list of keys, the empty key included. */
  lemma ParseOfCompile(p: Path)
    ensures Parse(Compile(p)) == Some(p)
  {
    if p != [] {
      var tokens := seq(|p|, i requires 0 <= i < |p| => Escape(p[i]));
      forall i | 0 <= i < |p| ensures Free(tokens[i], '/') && Unescape(tokens[i]) == p[i] {
        EscapeIsValid(p[i]);
        UnescapeOfEscape(p[i]);
      }
      SplitOfJoin(tokens, '/');
      assert Compile(p)[1..] == Join(tokens, "/");
      assert Parse(Compile(p)).value == p;
    }
  }

  lemma CompileInjective(p: Path, q: Path)
    ensures Compile(p) == Compile(q) <==> p == q
  {
    ParseOfCompile(p);
    ParseOfCompile(q);
  }

  /** `compile` undoes `parse` exactly on the pointers RFC 6901 section 3 allows. */
  lemma CompileOfParse(s: string)
    requires Parse(s).Some?
    ensures Compile(Parse(s).value) == s <==> ValidPointer(s)
  {
    if s != "" {
      var tokens := Split(s[1..], '/');
      var p := Parse(s).value;
      var again := seq(|p|, i requires 0 <= i < |p| => Escape(p[i]));
      JoinOfSplit(s[1..], '/');
      forall i | 0 <= i < |p|
        ensures again[i] == tokens[i] <==> ValidToken(tokens[i])
        ensures Free(again[i], '/')
      {
        EscapeOfUnescape(tokens[i]);
        EscapeIsValid(p[i]);
      }
      assert Compile(p)[1..] == Join(again, "/");
      if ValidPointer(s) {
        assert again == tokens;
      }
      if Compile(p) == s {
        SplitOfJoin(again, '/');
        assert again == tokens;
      }
    }
  }
}
