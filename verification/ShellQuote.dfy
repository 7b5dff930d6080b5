/** The command printer of the client and its inverse, the shell's tokenizer:
    POSIX Shell Command Language, sections 2.2.1 (escape character), 2.2.2
    (single-quotes) and 2.3 (token recognition). */
module ShellQuote {
  import opened Prelude

  // -- the printer ------------------------------------------------------------

  predicate IsAlnum(c: char) {
    'a' <= c <= 'z' || 'A' <= c <= 'Z' || '0' <= c <= '9'
  }

  predicate BareChar(c: char) {
    IsAlnum(c) || c in "_-./=:,%@+"
  }

  predicate IsBareWord(s: string) {
    s != "" && forall k | 0 <= k < |s| :: BareChar(s[k])
  }

  /** `s.replace('\'', r"'\''")`. */
  function EscapeQuotes(s: string): string {
    if s == "" then ""
    else (if s[0] == '\'' then "'\\''" else [s[0]]) + EscapeQuotes(s[1..])
  }

  function Quote(s: string): string {
    if IsBareWord(s) then s else "'" + EscapeQuotes(s) + "'"
  }

  /** The quoted words joined by single spaces. */
  function JoinQuoted(words: seq<string>): string {
    if words == [] then ""
    else if |words| == 1 then Quote(words[0])
    else Quote(words[0]) + " " + JoinQuoted(words[1..])
  }

  /** A single argument is a whole command line and stays verbatim. */
  function JoinCommand(words: seq<string>): string {
    if |words| == 1 then words[0] else JoinQuoted(words)
  }

  /** The text of a script file, or why it could not be read. */
  datatype Script = Text(text: string) | Unreadable

  datatype Built = Command(text: string, args: seq<string>) | NoCommand | FileError

  function BuildCommand(file: Option<Script>, words: seq<string>, piped: Option<string>): Built {
    match file
    case Some(Unreadable) => FileError
    case Some(Text(text)) => Command(text, words)
    case None =>
      if words != [] then
        if |words| == 1 && !IsBareWord(words[0]) then Command(words[0], [])
        else Command(JoinCommand(words), [])
      else if piped.Some? then Command(piped.value, [])
      else NoCommand
  }

  /** The safe set by its ASCII codes: letters, digits and ten signs. */
  lemma BareSet(c: char)
    ensures var n := c as int;
            BareChar(c) <==> 0x30 <= n <= 0x39 || 0x41 <= n <= 0x5A || 0x61 <= n <= 0x7A
                             || n in {0x25, 0x2B, 0x2C, 0x2D, 0x2E, 0x2F, 0x3A, 0x3D, 0x40, 0x5F}
  {
  }

  /** What the command is built from: a script file with the words as its
      parameters, else the words, else the script on standard input. */
  lemma BuiltFrom(file: Option<Script>, words: seq<string>, piped: Option<string>)
    ensures file.Some? && file.value.Text? ==> BuildCommand(file, words, piped) == Command(file.value.text, words)
    ensures BuildCommand(file, words, piped).FileError? <==> file == Some(Unreadable)
    ensures file.None? && |words| == 1 ==> BuildCommand(file, words, piped) == Command(words[0], [])
    ensures file.None? && words == [] && piped.Some? ==> BuildCommand(file, words, piped) == Command(piped.value, [])
    ensures BuildCommand(file, words, piped).NoCommand? <==> file.None? && words == [] && piped.None?
  {
  }

  // -- the tokenizer ----------------------------------------------------------

  predicate Blank(c: char) {
    c == ' ' || c == '\t'
  }

  /** Characters the shell may act on wherever they stand unquoted: operators,
      expansions, double-quotes, newline, and the patterns that file names
      match (sections 2.2 and 2.13). A dollar-sign that starts no expansion is
      among them: section 2.6 leaves it unspecified. */
  predicate Active(c: char) {
    c in "|&;<>()$`\"\n*?"
  }

  /** Comments and tilde-prefixes, at the beginning of a token only (sections
      2.3 and 2.6.1). */
  predicate Opening(c: char) {
    c in "#~"
  }

  /** A right bracket that ends a bracket expression: not the first character,
      and with neither a slash nor the end of the word before it. */
  predicate Closes(s: string, first: bool) {
    s != "" && !Blank(s[0]) && s[0] != '/' && ((s[0] == ']' && !first) || Closes(s[1..], false))
  }

  /** What follows a left bracket makes it a pattern. */
  predicate OpensBracket(after: string) {
    Closes(if after != "" && after[0] == '!' then after[1..] else after, true)
  }

  /** The shell may act on the first character of an unquoted text, `start`
      telling whether it begins a token. */
  predicate Acts(s: string, start: bool)
    requires s != ""
  {
    Active(s[0]) || (start && Opening(s[0])) || (s[0] == '[' && OpensBracket(s[1..]))
  }

  /** Characters that stand for themselves outside quotes, wherever they are. */
  predicate Ordinary(c: char) {
    !Blank(c) && !Active(c) && !Opening(c) && c != '[' && c != '\'' && c != '\\'
  }

  /** Text of which every character stands for itself where it is. */
  predicate Literal(s: string, start: bool) {
    s == "" || (!Blank(s[0]) && s[0] != '\'' && s[0] != '\\' && !Acts(s, start) && Literal(s[1..], false))
  }

  /** The text up to the closing single-quote, and what follows it. */
  function Quoted(s: string): (r: Option<(string, string)>)
    ensures r.Some? ==> |r.value.0| + |r.value.1| + 1 == |s|
  {
    if s == "" then None
    else if s[0] == '\'' then Some(("", s[1..]))
    else match Quoted(s[1..])
      case Some((body, rest)) => Some(([s[0]] + body, rest))
      case None => None
  }

  /** Token recognition with quote removal. `word` is the token being built,
      None between tokens. The result is None when a character the shell may
      act on is reached unquoted, or a quote is left open. */
  function Tokens(s: string, word: Option<string>): (r: Option<seq<string>>)
    decreases |s|
  {
    if s == "" then Some(if word.Some? then [word.value] else [])
    else
      var sofar := if word.Some? then word.value else "";
      if Blank(s[0]) then
        match Tokens(s[1..], None)
        case Some(rest) => Some((if word.Some? then [word.value] else []) + rest)
        case None => None
      else if s[0] == '\'' then
        match Quoted(s[1..])
        case Some((body, rest)) => Tokens(rest, Some(sofar + body))
        case None => None
      else if s[0] == '\\' then
        if |s| == 1 then None                                // nothing left to escape
        else if s[1] == '\n' then Tokens(s[2..], word)       // line continuation
        else Tokens(s[2..], Some(sofar + [s[1]]))
      else if Acts(s, word.None?) then None
      else Tokens(s[1..], Some(sofar + [s[0]]))
  }

  /** The words a command line is split into. */
  function Tokenize(s: string): Option<seq<string>> {
    Tokens(s, None)
  }

  // -- printing then tokenizing -----------------------------------------------

  lemma BareIsOrdinary(c: char)
    requires BareChar(c)
    ensures Ordinary(c)
  {
  }

  /** A run of ordinary characters joins the current word. */
  lemma {:induction false} OrdinaryRun(s: string, rest: string, word: Option<string>)
    requires s != "" && forall k | 0 <= k < |s| :: Ordinary(s[k])
    ensures Tokens(s + rest, word) == Tokens(rest, Some((if word.Some? then word.value else "") + s))
  {
    var sofar := if word.Some? then word.value else "";
    assert (s + rest)[1..] == s[1..] + rest;
    if |s| == 1 {
      assert s[1..] + rest == rest && sofar + [s[0]] == sofar + s;
    } else {
      OrdinaryRun(s[1..], rest, Some(sofar + [s[0]]));
      assert (sofar + [s[0]]) + s[1..] == sofar + s;
    }
  }

  /** The characters before the first single-quote. */
  function PlainRun(s: string): (n: nat)
    ensures n <= |s| && forall k | 0 <= k < n :: s[k] != '\''
    ensures n < |s| ==> s[n] == '\''
  {
    if s == "" || s[0] == '\'' then 0 else 1 + PlainRun(s[1..])
  }

  lemma {:induction false} EscapePlain(s: string, n: nat)
    requires n <= |s| && forall k | 0 <= k < n :: s[k] != '\''
    ensures EscapeQuotes(s) == s[..n] + EscapeQuotes(s[n..])
  {
    if n == 0 {
      assert s[0..] == s && s[..0] == "";
    } else {
      EscapePlain(s[1..], n - 1);
      assert s[..n] == [s[0]] + s[1..][..n - 1] && s[1..][n - 1..] == s[n..];
      Assoc([s[0]], s[1..][..n - 1], EscapeQuotes(s[n..]));
    }
  }

  lemma {:induction false} QuotedPlain(s: string, rest: string)
    requires forall k | 0 <= k < |s| :: s[k] != '\''
    ensures Quoted(s + "'" + rest) == Some((s, rest))
  {
    if s == "" {
      assert (s + "'" + rest)[1..] == rest;
    } else {
      QuotedPlain(s[1..], rest);
      assert (s + "'" + rest)[1..] == s[1..] + "'" + rest;
      assert [s[0]] + s[1..] == s;
    }
  }

  /** The current token with more text added to it. */
  function Grown(word: Option<string>, more: string): Option<string> {
    Some((if word.Some? then word.value else "") + more)
  }

  lemma GrownTwice(word: Option<string>, a: string, b: string)
    ensures Grown(Grown(word, a), b) == Grown(word, a + b)
  {
    var sofar := if word.Some? then word.value else "";
    assert (sofar + a) + b == sofar + (a + b);
  }

  lemma QuotedSegment(body: string, rest: string, word: Option<string>)
    requires forall k | 0 <= k < |body| :: body[k] != '\''
    ensures Tokens("'" + body + "'" + rest, word) == Tokens(rest, Grown(word, body))
  {
    QuotedPlain(body, rest);
    assert ("'" + body + "'" + rest)[1..] == body + "'" + rest;
  }

  lemma EscapedQuote(rest: string, word: Option<string>)
    ensures Tokens("\\'" + rest, word) == Tokens(rest, Grown(word, "'"))
  {
    assert ("\\'" + rest)[2..] == rest;
  }

  /** A quote inside a word closes the quoted segment, stands escaped, and
      opens the next one. */
  lemma Regroup(front: string, tail: string, rest: string)
    ensures "'" + (front + ("'\\''" + tail)) + "'" + rest
         == "'" + front + "'" + ("\\'" + ("'" + tail + "'" + rest))
  {
    Assoc(front, "'", "\\'" + ("'" + tail));
    assert "'\\''" + tail == "'" + ("\\'" + ("'" + tail));
    Assoc("'", front + "'", "\\'" + ("'" + tail));
    Assoc("'", front, "'");
    var left := "'" + front + "'";
    Assoc(left, "\\'" + ("'" + tail), "'");
    Assoc(left, ("\\'" + ("'" + tail)) + "'", rest);
    Assoc("\\'", "'" + tail, "'");
    Assoc("\\'", "'" + tail + "'", rest);
  }

  lemma EscapedAt(s: string, n: nat)
    requires n == PlainRun(s) < |s|
    ensures EscapeQuotes(s) == s[..n] + ("'\\''" + EscapeQuotes(s[n + 1..]))
  {
    EscapePlain(s, n);
    assert s[n..][1..] == s[n + 1..];
  }

  /** A quoted word, wherever it starts, adds exactly the word. */
  lemma {:induction false} QuotedWord(s: string, rest: string, word: Option<string>)
    ensures Tokens("'" + EscapeQuotes(s) + "'" + rest, word) == Tokens(rest, Grown(word, s))
    decreases |s|
  {
    var n := PlainRun(s);
    if n == |s| {
      EscapePlain(s, n);
      assert s[n..] == "" && s[..n] == s && s + "" == s;
      QuotedSegment(s, rest, word);
    } else {
      var later := "'" + EscapeQuotes(s[n + 1..]) + "'" + rest;
      EscapedAt(s, n);
      Regroup(s[..n], EscapeQuotes(s[n + 1..]), rest);
      QuotedSegment(s[..n], "\\'" + later, word);
      EscapedQuote(later, Grown(word, s[..n]));
      QuotedWord(s[n + 1..], rest, Grown(Grown(word, s[..n]), "'"));
      GrownTwice(word, s[..n], "'");
      GrownTwice(word, s[..n] + "'", s[n + 1..]);
      assert (s[..n] + "'") + s[n + 1..] == s;
    }
  }

  lemma {:induction false} EscapeOnlyAdds(s: string)
    ensures |EscapeQuotes(s)| >= |s|
  {
    if s != "" {
      EscapeOnlyAdds(s[1..]);
    }
  }

  /** A word is printed as it stands exactly when it is bare. */
  lemma QuotesOnlyWhatNeedsIt(s: string)
    ensures Quote(s) == s <==> IsBareWord(s)
    ensures !IsBareWord(s) ==> |Quote(s)| >= |s| + 2
  {
    EscapeOnlyAdds(s);
  }

  /** Any printed word, followed by anything, tokenizes to itself. */
  lemma PrintedWord(s: string, rest: string)
    ensures Tokens(Quote(s) + rest, None) == Tokens(rest, Some(s))
  {
    if IsBareWord(s) {
      forall k | 0 <= k < |s| ensures Ordinary(s[k]) { BareIsOrdinary(s[k]); }
      OrdinaryRun(s, rest, None);
    } else {
      QuotedWord(s, rest, None);
    }
    assert "" + s == s;
  }

  /** A printed word in front of a line that tokenizes. */
  lemma NextWord(w: string, more: string, rest: seq<string>)
    requires Tokenize(more) == Some(rest)
    ensures Tokenize(Quote(w) + " " + more) == Some([w] + rest)
  {
    Assoc(Quote(w), " ", more);
    PrintedWord(w, " " + more);
    assert (" " + more)[1..] == more;
  }

  /** Every list of words survives the printer: nothing in the printed line is
      left for the shell to act on. */
  lemma {:induction false} JoinedWords(words: seq<string>)
    ensures Tokenize(JoinQuoted(words)) == Some(words)
  {
    if words == [] {
    } else if |words| == 1 {
      PrintedWord(words[0], "");
      assert Quote(words[0]) + "" == Quote(words[0]);
      assert words == [words[0]];
    } else {
      JoinedWords(words[1..]);
      NextWord(words[0], JoinQuoted(words[1..]), words[1..]);
      assert [words[0]] + words[1..] == words;
    }
  }

  /** Distinct word lists print distinct command lines. */
  lemma PrinterInjective(a: seq<string>, b: seq<string>)
    requires JoinQuoted(a) == JoinQuoted(b)
    ensures a == b
  {
    JoinedWords(a);
    JoinedWords(b);
  }

  // -- the lone argument ------------------------------------------------------

  /** Total length of the tokens of a line. */
  function Weight(words: seq<string>): nat {
    if words == [] then 0 else |words[0]| + Weight(words[1..])
  }

  lemma WeightConcat(a: seq<string>, b: seq<string>)
    requires |a| <= 1
    ensures Weight(a + b) == Weight(a) + Weight(b)
  {
    if a == [] { assert a + b == b; } else { assert (a + b)[1..] == b; }
  }

  /** Tokens never outweigh the line, and weigh the same only when every
      character of it stood for itself where it was. */
  lemma {:induction false} TokensWeight(s: string, word: Option<string>)
    requires Tokens(s, word).Some?
    ensures var w := if word.Some? then |word.value| else 0;
            var r := Weight(Tokens(s, word).value);
            r <= w + |s| && (r == w + |s| ==> Literal(s, word.None?))
    decreases |s|
  {
    if s != "" {
      var sofar := if word.Some? then word.value else "";
      if Blank(s[0]) {
        TokensWeight(s[1..], None);
        WeightConcat(if word.Some? then [word.value] else [], Tokens(s[1..], None).value);
      } else if s[0] == '\'' {
        var q := Quoted(s[1..]).value;
        TokensWeight(q.1, Some(sofar + q.0));
      } else if s[0] == '\\' {
        TokensWeight(s[2..], if s[1] == '\n' then word else Some(sofar + [s[1]]));
      } else {
        TokensWeight(s[1..], Some(sofar + [s[0]]));
      }
    }
  }

  /** Literal text joins the current word. */
  lemma {:induction false} LiteralRun(s: string, word: Option<string>)
    requires s != "" && Literal(s, word.None?)
    ensures Tokens(s, word) == Some([(if word.Some? then word.value else "") + s])
  {
    var sofar := if word.Some? then word.value else "";
    if |s| == 1 {
      assert s[1..] == "" && sofar + [s[0]] == sofar + s;
    } else {
      LiteralRun(s[1..], Some(sofar + [s[0]]));
      assert (sofar + [s[0]]) + s[1..] == sofar + s;
    }
  }

  /** Exactly when the built command gives back the argument list: always for
      two or more words, and for a lone word when every character of it stands
      for itself where it is, which is more than the bare-word test asks. */
  lemma BuiltCommandTokens(words: seq<string>, piped: Option<string>)
    requires words != []
    ensures BuildCommand(None, words, piped).Command? && BuildCommand(None, words, piped).args == []
    ensures Tokenize(BuildCommand(None, words, piped).text) == Some(words)
        <==> |words| > 1 || (words[0] != "" && Literal(words[0], true))
  {
    if |words| > 1 {
      JoinedWords(words);
    } else {
      LoneWord(words[0]);
      assert words == [words[0]];
    }
  }

  lemma LoneWord(w: string)
    ensures Tokenize(w) == Some([w]) <==> w != "" && Literal(w, true)
    ensures IsBareWord(w) ==> Literal(w, true)
  {
    if w != "" && Literal(w, true) {
      LiteralRun(w, None);
      assert "" + w == w;
    }
    if Tokenize(w) == Some([w]) {
      TokensWeight(w, None);
      assert Weight([w]) == |w|;
    }
    if IsBareWord(w) {
      BareIsLiteral(w, true);
    }
  }

  lemma {:induction false} BareIsLiteral(w: string, start: bool)
    requires forall k | 0 <= k < |w| :: BareChar(w[k])
    ensures Literal(w, start)
  {
    if w != "" {
      BareIsOrdinary(w[0]);
      BareIsLiteral(w[1..], false);
    }
  }

  /** A lone argument that does not come back, */
  lemma LoneSplits(piped: Option<string>)
    ensures Tokenize(BuildCommand(None, ["a b"], piped).text) == Some(["a", "b"])
  {
    assert !BareChar("a b"[1]);
    TokenizeTwo();
  }

  lemma TokenizeTwo()
    ensures Tokenize("a b") == Some(["a", "b"])
  {
    OrdinaryRun("a", " b", None);
    LiteralRun("b", None) by { assert Literal("b"[1..], false); }
    assert "a" + " b" == "a b" && " b"[1..] == "b" && "" + "a" == "a" && "" + "b" == "b";
    assert ["a"] + ["b"] == ["a", "b"];
  }

  /** and one that does although it is not bare. */
  lemma HashInside()
    ensures "a#b"[1..] == "#b" && "#b"[1..] == "b" && "b"[1..] == ""
    ensures Literal("b", false) && Literal("#b", false)
  {
    assert "a#b"[1..] == "#b" && "#b"[1..] == "b" && "b"[1..] == "";
  }

  lemma LoneStays(piped: Option<string>)
    ensures !IsBareWord("a#b") && Tokenize(BuildCommand(None, ["a#b"], piped).text) == Some(["a#b"])
  {
    var w := "a#b";
    assert !BareChar(w[1]);
    HashInside();
    BuiltCommandTokens([w], piped);
  }
}
