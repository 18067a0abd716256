/** The `Authorization` header with several schemes: pkg/auth/authorization.go. */
module Authorization {
  import opened Text
  import opened KubeUtil

  type Authorizations = map<string, string>

  /** `unicode.IsSpace`; any predicate that holds of the blank and not of the semicolon. */
  type SpaceTest = char -> bool

  /** `http.CanonicalHeaderKey`. */
  type Canonicalizer = string -> string

  predicate Marker(isSpace: SpaceTest, c: char) { isSpace(c) || c == ';' }

  /** Canonicalising is idempotent and neither moves, adds nor removes spaces and semicolons. */
  ghost predicate Suitable(isSpace: SpaceTest, canon: Canonicalizer) {
    isSpace(' ') && !isSpace(';') && forall k :: CanonicalizesWell(isSpace, canon, k)
  }

  predicate CanonicalizesWell(isSpace: SpaceTest, canon: Canonicalizer, k: string) {
    canon(canon(k)) == canon(k) && |canon(k)| == |k| &&
    forall i | 0 <= i < |k| && (Marker(isSpace, k[i]) || Marker(isSpace, canon(k)[i])) :: canon(k)[i] == k[i]
  }

  // --------------------------------------------------------------------- parsing

  function TrimLeft(isSpace: SpaceTest, s: string): string {
    if s != "" && isSpace(s[0]) then TrimLeft(isSpace, s[1..]) else s
  }

  function TrimRight(isSpace: SpaceTest, s: string): string {
    if s != "" && isSpace(s[|s| - 1]) then TrimRight(isSpace, s[..|s| - 1]) else s
  }

  /** `bytes.TrimSpace`. */
  function TrimSpace(isSpace: SpaceTest, s: string): string { TrimRight(isSpace, TrimLeft(isSpace, s)) }

  /** Key and value of one token; anything but exactly two fields has no value. */
  function ParseToken(isSpace: SpaceTest, canon: Canonicalizer, token: string): (string, string) {
    var kv := Split(TrimSpace(isSpace, token), ' ');
    (canon(TrimSpace(isSpace, kv[0])), if |kv| == 2 then TrimSpace(isSpace, kv[1]) else "")
  }

  /** The map after these tokens, later ones winning. */
  function ParseTokens(isSpace: SpaceTest, canon: Canonicalizer, tokens: seq<string>): Authorizations {
    if tokens == [] then map[]
    else
      var last := ParseToken(isSpace, canon, tokens[|tokens| - 1]);
      ParseTokens(isSpace, canon, tokens[..|tokens| - 1])[last.0 := last.1]
  }

  function Parse(isSpace: SpaceTest, canon: Canonicalizer, s: string): Authorizations {
    if s == "" then map[] else ParseTokens(isSpace, canon, Split(s, ';'))
  }

  method ParseAuthorization(isSpace: SpaceTest, canon: Canonicalizer, s: string) returns (auths: Authorizations)
    ensures auths == Parse(isSpace, canon, s)
  {
    auths := map[];
    if s == "" { return; }
    var tokens := Split(s, ';');
    for i := 0 to |tokens|
      invariant auths == ParseTokens(isSpace, canon, tokens[..i])
    {
      assert tokens[..i + 1][..i] == tokens[..i];
      var kv := Split(TrimSpace(isSpace, tokens[i]), ' ');
      var v := "";
      if |kv| == 2 { v := TrimSpace(isSpace, kv[1]); }
      auths := auths[canon(TrimSpace(isSpace, kv[0])) := v];
    }
    assert tokens[..|tokens|] == tokens;
  }

  /** Token `i` has the scheme and the value, and no later one has the scheme. */
  predicate IsLast(isSpace: SpaceTest, canon: Canonicalizer, tokens: seq<string>, i: nat, k: string, v: string) {
    i < |tokens| && ParseToken(isSpace, canon, tokens[i]) == (k, v) &&
    forall j | i < j < |tokens| :: ParseToken(isSpace, canon, tokens[j]).0 != k
  }

  /** A scheme is read exactly when some token names it, with the value of the last that does. */
  lemma {:induction false} LastSchemeWins(isSpace: SpaceTest, canon: Canonicalizer, tokens: seq<string>, k: string, v: string)
    ensures var auths := ParseTokens(isSpace, canon, tokens);
      (k in auths && auths[k] == v) <==> exists i: nat :: IsLast(isSpace, canon, tokens, i, k, v)
  {
    if tokens != [] {
      var n := |tokens| - 1;
      var before := tokens[..n];
      LastSchemeWins(isSpace, canon, before, k, v);
      if ParseToken(isSpace, canon, tokens[n]).0 == k {
        assert ParseToken(isSpace, canon, tokens[n]).1 == v ==> IsLast(isSpace, canon, tokens, n, k, v);
        assert forall i: nat | IsLast(isSpace, canon, tokens, i, k, v) :: i == n;
      } else {
        forall i: nat ensures IsLast(isSpace, canon, tokens, i, k, v) <==> IsLast(isSpace, canon, before, i, k, v) {
          LastEarlier(isSpace, canon, tokens, i, k, v);
        }
      }
    }
  }

  lemma LastEarlier(isSpace: SpaceTest, canon: Canonicalizer, tokens: seq<string>, i: nat, k: string, v: string)
    requires tokens != [] && ParseToken(isSpace, canon, tokens[|tokens| - 1]).0 != k
    ensures IsLast(isSpace, canon, tokens, i, k, v) <==> IsLast(isSpace, canon, tokens[..|tokens| - 1], i, k, v)
  {
    var before := tokens[..|tokens| - 1];
    assert forall j | 0 <= j < |before| :: before[j] == tokens[j];
  }

  /** A token is a scheme alone, with an empty value, or a scheme and its value; a token of more words
      loses them all but the first. */
  lemma TokenMeaning(isSpace: SpaceTest, canon: Canonicalizer, a: string, b: string, c: string)
    requires isSpace(' ') && Word(isSpace, a) && Word(isSpace, b) && Word(isSpace, c) && a != "" && b != "" && c != ""
    ensures ParseToken(isSpace, canon, a) == (canon(a), "")
    ensures ParseToken(isSpace, canon, a + " " + b) == (canon(a), b)
    ensures ParseToken(isSpace, canon, a + " " + b + " " + c) == (canon(a), "")
  {
    var two, three := a + " " + b, a + " " + b + " " + c;
    TrimSpaceMeaning(isSpace, a);
    TrimSpaceMeaning(isSpace, b);
    assert two[0] == a[0] && two[|two| - 1] == b[|b| - 1];
    assert three[0] == a[0] && three[|three| - 1] == c[|c| - 1];
    TrimSpaceMeaning(isSpace, two);
    TrimSpaceMeaning(isSpace, three);
    SplitWhole(a, ' ');
    SplitWhole(b, ' ');
    SplitFirst(a, ' ', b);
    assert three == a + " " + (b + " " + c);
    SplitFirst(a, ' ', b + " " + c);
    SplitFirst(b, ' ', c);
  }

  // -------------------------------------------------------------------- printing

  function EntryText(canon: Canonicalizer, auths: Authorizations, k: string): string
    requires k in auths
  {
    canon(k) + " " + auths[k]
  }

  function EntryTexts(canon: Canonicalizer, auths: Authorizations, order: seq<string>): seq<string>
    requires forall k | k in order :: k in auths
  {
    seq(|order|, i requires 0 <= i < |order| => EntryText(canon, auths, order[i]))
  }

  /** The texts that `String` can print: the entries in some order. */
  ghost predicate Prints(canon: Canonicalizer, auths: Authorizations, text: string) {
    exists order :: Enumerates(order, auths.Keys) && text == Join(EntryTexts(canon, auths, order), "; ")
  }

  /** `String`, visiting the keys in any order. */
  method String(canon: Canonicalizer, auths: Authorizations) returns (text: string)
    ensures Prints(canon, auths, text)
  {
    text := "";
    ghost var order := [];
    var count := 0;
    var todo := auths.Keys;
    while todo != {}
      invariant todo <= auths.Keys && count == |order|
      invariant forall k :: k in order <==> k in auths && k !in todo
      invariant forall i, j | 0 <= i < j < |order| :: order[i] != order[j]
      invariant text == Join(EntryTexts(canon, auths, order), "; ")
      decreases todo
    {
      var tpe :| tpe in todo;
      todo := todo - {tpe};
      OneMoreEntry(canon, auths, order, tpe);
      if count > 0 { text := text + "; "; }
      text := text + canon(tpe);
      text := text + " ";
      text := text + auths[tpe];
      count := count + 1;
      order := order + [tpe];
    }
  }

  lemma OneMoreEntry(canon: Canonicalizer, auths: Authorizations, order: seq<string>, k: string)
    requires k in auths && forall j | j in order :: j in auths
    ensures Join(EntryTexts(canon, auths, order + [k]), "; ") ==
      if order == [] then canon(k) + " " + auths[k]
      else Join(EntryTexts(canon, auths, order), "; ") + "; " + canon(k) + " " + auths[k]
  {
    var last := EntryText(canon, auths, k);
    JoinAppend(EntryTexts(canon, auths, order), last, "; ");
    assert EntryTexts(canon, auths, order + [k]) == EntryTexts(canon, auths, order) + [last];
    if order != [] {
      var before := Join(EntryTexts(canon, auths, order), "; ") + "; ";
      Associative(before, canon(k) + " ", auths[k]);
      Associative(before, canon(k), " ");
    }
  }

  lemma {:induction false} JoinAppend(parts: seq<string>, last: string, sep: string)
    ensures Join(parts + [last], sep) == if parts == [] then last else Join(parts, sep) + sep + last
  {
    if |parts| == 1 {
      assert (parts + [last])[1..] == [last];
    } else if |parts| > 1 {
      assert (parts + [last])[1..] == parts[1..] + [last];
      JoinAppend(parts[1..], last, sep);
    }
  }

  // ------------------------------------------------------------------ the round trip

  /** No space at either end. */
  predicate Trimmed(isSpace: SpaceTest, s: string) {
    s == "" || (!isSpace(s[0]) && !isSpace(s[|s| - 1]))
  }

  lemma {:induction false} TrimSpaceMeaning(isSpace: SpaceTest, s: string)
    ensures Trimmed(isSpace, TrimSpace(isSpace, s))
    ensures Trimmed(isSpace, s) ==> TrimSpace(isSpace, s) == s
    ensures forall c | c in TrimSpace(isSpace, s) :: c in s
  {
    TrimLeftMeaning(isSpace, s);
    TrimRightMeaning(isSpace, TrimLeft(isSpace, s));
  }

  lemma {:induction false} TrimLeftMeaning(isSpace: SpaceTest, s: string)
    ensures TrimLeft(isSpace, s) == "" || !isSpace(TrimLeft(isSpace, s)[0])
    ensures s != "" && !isSpace(s[0]) ==> TrimLeft(isSpace, s) == s
    ensures forall c | c in TrimLeft(isSpace, s) :: c in s
  {
    if s != "" && isSpace(s[0]) { TrimLeftMeaning(isSpace, s[1..]); }
  }

  lemma {:induction false} TrimRightMeaning(isSpace: SpaceTest, s: string)
    ensures TrimRight(isSpace, s) <= s
    ensures TrimRight(isSpace, s) == "" || !isSpace(TrimRight(isSpace, s)[|TrimRight(isSpace, s)| - 1])
    ensures s != "" && !isSpace(s[|s| - 1]) ==> TrimRight(isSpace, s) == s
  {
    if s != "" && isSpace(s[|s| - 1]) { TrimRightMeaning(isSpace, s[..|s| - 1]); }
  }

  /** A word without blanks or semicolons and without space at its ends. */
  predicate Word(isSpace: SpaceTest, s: string) { Trimmed(isSpace, s) && Free(s, ' ') && Free(s, ';') }

  /** What every map that parsing produces is like. */
  ghost predicate WellFormed(isSpace: SpaceTest, canon: Canonicalizer, auths: Authorizations) {
    forall k | k in auths :: GoodEntry(isSpace, canon, k, auths[k])
  }

  predicate GoodEntry(isSpace: SpaceTest, canon: Canonicalizer, k: string, v: string) {
    canon(k) == k && Word(isSpace, k) && Word(isSpace, v) && (k == "" ==> v == "")
  }

  lemma CanonicalWord(isSpace: SpaceTest, canon: Canonicalizer, k: string)
    requires Suitable(isSpace, canon) && Word(isSpace, k)
    ensures Word(isSpace, canon(k)) && |canon(k)| == |k|
  {
    var c := canon(k);
    assert CanonicalizesWell(isSpace, canon, k);
    forall i | 0 <= i < |k| ensures Marker(isSpace, c[i]) ==> Marker(isSpace, k[i]) && c[i] == k[i] {
      assert Marker(isSpace, c[i]) ==> c[i] == k[i];
    }
    assert forall i | 0 <= i < |k| :: k[i] in k;
  }

  lemma TokenIsWellFormed(isSpace: SpaceTest, canon: Canonicalizer, token: string)
    requires Suitable(isSpace, canon) && Free(token, ';')
    ensures var (k, v) := ParseToken(isSpace, canon, token); GoodEntry(isSpace, canon, k, v)
  {
    var t := TrimSpace(isSpace, token);
    var kv := Split(t, ' ');
    TrimSpaceMeaning(isSpace, token);
    JoinOfSplit(t, ' ');
    PiecesAreFree(t, ' ', ';');
    TrimSpaceMeaning(isSpace, kv[0]);
    var k := TrimSpace(isSpace, kv[0]);
    assert Word(isSpace, k);
    CanonicalWord(isSpace, canon, k);
    assert CanonicalizesWell(isSpace, canon, k);
    if |kv| == 2 { TrimSpaceMeaning(isSpace, kv[1]); }
    if k == "" && t != "" { FirstPieceStarts(isSpace, t, kv[0]); }
  }

  /** A trimmed text that is not empty has a first piece that is not blank. */
  lemma FirstPieceStarts(isSpace: SpaceTest, t: string, first: string)
    requires isSpace(' ') && Trimmed(isSpace, t) && t != "" && first == Split(t, ' ')[0]
    ensures first != "" && TrimSpace(isSpace, first) != ""
  {
    assert first[0] == t[0];
    TrimLeftMeaning(isSpace, first);
    TrimRightKeepsFirst(isSpace, first);
  }

  lemma {:induction false} TrimRightKeepsFirst(isSpace: SpaceTest, s: string)
    requires s != "" && !isSpace(s[0])
    ensures TrimRight(isSpace, s) != ""
  {
    if isSpace(s[|s| - 1]) { TrimRightKeepsFirst(isSpace, s[..|s| - 1]); }
  }

  lemma {:induction false} PiecesAreFree(s: string, c: char, x: char)
    requires Free(s, x)
    ensures forall i | 0 <= i < |Split(s, c)| :: Free(Split(s, c)[i], x)
  {
    if s == "" {
    } else {
      assert s[0] in s;
      PiecesAreFree(s[1..], c, x);
    }
  }

  lemma {:induction false} ParsedIsWellFormed(isSpace: SpaceTest, canon: Canonicalizer, tokens: seq<string>)
    requires Suitable(isSpace, canon) && forall i | 0 <= i < |tokens| :: Free(tokens[i], ';')
    ensures WellFormed(isSpace, canon, ParseTokens(isSpace, canon, tokens))
  {
    if tokens == [] {
    } else {
      ParsedIsWellFormed(isSpace, canon, tokens[..|tokens| - 1]);
      TokenIsWellFormed(isSpace, canon, tokens[|tokens| - 1]);
    }
  }

  /** A printed entry, with the blank that may precede it, parses back. */
  lemma EntryParsesBack(isSpace: SpaceTest, canon: Canonicalizer, k: string, v: string, blank: string)
    requires isSpace(' ') && (blank == "" || blank == " ") && GoodEntry(isSpace, canon, k, v)
    ensures ParseToken(isSpace, canon, blank + (k + " " + v)) == (k, v)
  {
    EntryTrims(isSpace, k, v, blank);
    EntrySplits(k, v);
    TrimSpaceMeaning(isSpace, k);
    TrimSpaceMeaning(isSpace, v);
  }

  lemma EntrySplits(k: string, v: string)
    requires Free(k, ' ') && Free(v, ' ')
    ensures Split(if v != "" then k + " " + v else k, ' ') == if v != "" then [k, v] else [k]
  {
    if v != "" {
      SplitFirst(k, ' ', v);
      SplitWhole(v, ' ');
    } else {
      SplitWhole(k, ' ');
    }
  }

  lemma EntryTrims(isSpace: SpaceTest, k: string, v: string, blank: string)
    requires isSpace(' ') && (blank == "" || blank == " ")
    requires Trimmed(isSpace, k) && Trimmed(isSpace, v) && (k == "" ==> v == "")
    ensures TrimSpace(isSpace, blank + (k + " " + v)) == if v != "" then k + " " + v else k
  {
    var body := k + " " + v;
    BlankIsTrimmed(isSpace, blank, body);
    if k == "" {
      assert body == " " && body[1..] == "";
    } else {
      assert body[0] == k[0];
      TrimLeftMeaning(isSpace, body);
      if v == "" {
        LastIsTrimmed(isSpace, k);
        TrimRightMeaning(isSpace, k);
      } else {
        assert body[|body| - 1] == v[|v| - 1];
        TrimRightMeaning(isSpace, body);
      }
    }
  }

  lemma BlankIsTrimmed(isSpace: SpaceTest, blank: string, s: string)
    requires isSpace(' ') && (blank == "" || blank == " ")
    ensures TrimLeft(isSpace, blank + s) == TrimLeft(isSpace, s)
  {
    if blank == " " {
      assert (blank + s)[0] == ' ' && (blank + s)[1..] == s;
    } else {
      assert blank + s == s;
    }
  }

  lemma LastIsTrimmed(isSpace: SpaceTest, k: string)
    requires isSpace(' ')
    ensures TrimRight(isSpace, k + " " + "") == TrimRight(isSpace, k)
  {
    var s := k + " " + "";
    assert s[|s| - 1] == ' ' && s[..|s| - 1] == k;
  }

  /** The map whose entries are read from the printed ones. */
  lemma {:induction false} EntriesParseBack(isSpace: SpaceTest, canon: Canonicalizer, auths: Authorizations, order: seq<string>,
                                            tokens: seq<string>, n: nat)
    requires Suitable(isSpace, canon) && WellFormed(isSpace, canon, auths)
    requires Enumerates(order, auths.Keys) && n <= |order| == |tokens|
    requires PrintedAs(canon, auths, order, tokens)
    ensures ReadBack(ParseTokens(isSpace, canon, tokens[..n]), auths, order, n)
  {
    if n == 0 {
      assert tokens[..n] == [];
    } else {
      EntriesParseBack(isSpace, canon, auths, order, tokens, n - 1);
      assert tokens[..n][..n - 1] == tokens[..n - 1];
      var k := order[n - 1];
      assert tokens[..n][n - 1] == Blank(n - 1) + EntryText(canon, auths, k);
      assert GoodEntry(isSpace, canon, k, auths[k]) && EntryText(canon, auths, k) == k + " " + auths[k];
      EntryParsesBack(isSpace, canon, k, auths[k], Blank(n - 1));
    }
  }

  predicate PrintedAs(canon: Canonicalizer, auths: Authorizations, order: seq<string>, tokens: seq<string>) {
    |tokens| == |order| &&
    forall i {:trigger Blank(i)} | 0 <= i < |order| ::
      order[i] in auths && tokens[i] == Blank(i) + EntryText(canon, auths, order[i])
  }

  function Blank(i: nat): string { if i == 0 then "" else " " }

  /** The first `n` keys of `order`, with their values in `auths`. */
  predicate ReadBack(read: Authorizations, auths: Authorizations, order: seq<string>, n: nat)
    requires n <= |order|
  {
    (forall i | 0 <= i < n :: order[i] in read) && forall k | k in read :: k in auths && read[k] == auths[k]
  }

  /** Cutting the printed text at semicolons gives the entries, all but the first after a blank. */
  lemma {:induction false} PrintedTokens(parts: seq<string>, blank: string)
    requires parts != [] && (blank == "" || blank == " ") && forall i | 0 <= i < |parts| :: Free(parts[i], ';')
    ensures var tokens := Split(blank + Join(parts, "; "), ';');
      |tokens| == |parts| && forall i | 0 <= i < |parts| :: tokens[i] == (if i == 0 then blank else " ") + parts[i]
    decreases |parts|
  {
    var first := blank + parts[0];
    if |parts| == 1 {
      SplitWhole(first, ';');
    } else {
      var rest := " " + Join(parts[1..], "; ");
      assert blank + Join(parts, "; ") == first + [';'] + rest;
      SplitFirst(first, ';', rest);
      PrintedTokens(parts[1..], " ");
      assert forall i | 0 < i < |parts| :: parts[i] == parts[1..][i - 1];
    }
  }

  /** Parsing what was printed gives the map back, for every order of its keys. */
  lemma PrintedParsesBack(isSpace: SpaceTest, canon: Canonicalizer, auths: Authorizations, order: seq<string>)
    requires Suitable(isSpace, canon) && WellFormed(isSpace, canon, auths) && Enumerates(order, auths.Keys)
    ensures Parse(isSpace, canon, Join(EntryTexts(canon, auths, order), "; ")) == auths
  {
    if order == [] {
      assert auths == map[];
    } else {
      var tokens := Split(Join(EntryTexts(canon, auths, order), "; "), ';');
      TokensOfPrinted(isSpace, canon, auths, order);
      EntriesParseBack(isSpace, canon, auths, order, tokens, |order|);
      assert tokens[..|order|] == tokens;
      AllRead(ParseTokens(isSpace, canon, tokens), auths, order);
    }
  }

  lemma AllRead(read: Authorizations, auths: Authorizations, order: seq<string>)
    requires ReadBack(read, auths, order, |order|) && Enumerates(order, auths.Keys)
    ensures read == auths
  {
    assert forall k | k in auths :: k in order && k in read;
  }

  lemma TokensOfPrinted(isSpace: SpaceTest, canon: Canonicalizer, auths: Authorizations, order: seq<string>)
    requires Suitable(isSpace, canon) && WellFormed(isSpace, canon, auths) && Enumerates(order, auths.Keys) && order != []
    ensures var text := Join(EntryTexts(canon, auths, order), "; ");
      text != "" && PrintedAs(canon, auths, order, Split(text, ';'))
  {
    var parts := EntryTexts(canon, auths, order);
    forall i | 0 <= i < |order| ensures order[i] in auths && Free(parts[i], ';') && parts[i] != "" {
      var k := order[i];
      assert k in order && GoodEntry(isSpace, canon, k, auths[k]);
      assert parts[i] == k + " " + auths[k] && " "[0] == ' ';
    }
    PrintedTokens(parts, "");
    assert "" + Join(parts, "; ") == Join(parts, "; ");
    assert parts[0] != "";
  }

  /** Printing normalises every header: parsing its printed form, whatever the order of the
      schemes, gives what parsing the header gave. */
  lemma PrintingNormalises(isSpace: SpaceTest, canon: Canonicalizer, s: string, text: string)
    requires Suitable(isSpace, canon) && Prints(canon, Parse(isSpace, canon, s), text)
    ensures Parse(isSpace, canon, text) == Parse(isSpace, canon, s)
  {
    var auths := Parse(isSpace, canon, s);
    var order :| Enumerates(order, auths.Keys) && text == Join(EntryTexts(canon, auths, order), "; ");
    JoinOfSplit(s, ';');
    ParsedIsWellFormed(isSpace, canon, Split(s, ';'));
    PrintedParsesBack(isSpace, canon, auths, order);
  }
}
