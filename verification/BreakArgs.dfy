/** clp_breakargs: breaking a line into words, with quotes and escapes. */
module BreakArgs {

  import opened Chars

  const NUL: char := '\0'

  predicate IsOctal(c: char) { '0' <= c <= '7' }

  // A delimiter string, or nil: then white space delimits.
  datatype Delim = Blank | Set(chars: string)

  datatype Outcome = Words(words: seq<string>) | BadMessage | Invalid

  // Where the lexer is: the flags, the words ended so far and the one being built.
  datatype Lexer = Lexer(backslash: bool, dquote: bool, squote: bool, words: seq<string>, cur: string)

  const START: Lexer := Lexer(false, false, false, [], [])

  function Put(l: Lexer, c: char): Lexer { l.(cur := l.cur + [c]) }

  function EndWord(l: Lexer): Lexer { l.(words := l.words + [l.cur], cur := []) }

  // What a backslash and a character that is no digit stand for.
  function Unescape(c: char): char {
    match c
    case 'a' => 7 as char
    case 'b' => 8 as char
    case 'f' => 12 as char
    case 'n' => 10 as char
    case 'r' => 13 as char
    case 't' => 9 as char
    case 'v' => 11 as char
    case _ => c
  }

  // One round of the loop on character c, octal escapes apart.
  function Feed(l: Lexer, c: char, delim: Delim): Lexer {
    if l.backslash then Put(l, Unescape(c)).(backslash := false)
    else if c == '\\' then l.(backslash := true)
    else if c == '\"' then (if l.squote then Put(l, c) else l.(dquote := !l.dquote))
    else if c == '\'' then (if l.dquote then Put(l, c) else l.(squote := !l.squote))
    else if l.dquote || l.squote then Put(l, c)
    else if delim.Blank? && (c == NUL || IsSpace(c)) then (if l.cur != [] then EndWord(l) else l)
    else if delim.Set? && (c in delim.chars || c == NUL) then (if l.cur != [] || !IsSpace(c) then EndWord(l) else l)
    else Put(l, c)
  }

  // strtoul in base 8: the digits it takes, their value, and that value clamped to
  // an unsigned long and then cut to a char.
  function OctalLen(s: string): (n: nat)
    ensures n <= |s| && forall i :: 0 <= i < n ==> IsOctal(s[i])
    ensures n < |s| ==> !IsOctal(s[n])
  {
    if s != [] && IsOctal(s[0]) then 1 + OctalLen(s[1..]) else 0
  }

  function OctalValue(digits: string): nat
    requires forall i :: 0 <= i < |digits| ==> IsOctal(digits[i])
  {
    if digits == [] then 0
    else
      var last := digits[|digits| - 1];
      assert IsOctal(last);
      8 * OctalValue(digits[..|digits| - 1]) + (last as int - '0' as int)
  }

  const ULONG_MAX: nat := 0xFFFF_FFFF_FFFF_FFFF

  function OctalChar(s: string): char {
    var v := OctalValue(s[..OctalLen(s)]);
    ((if v > ULONG_MAX then ULONG_MAX else v) % 256) as char
  }

  // The loop, from the state l on with `rest` still to read.  The octal branch may
  // take no character at all, as in backslash 8; then only the flag goes down.
  function Lex(l: Lexer, rest: string, delim: Delim): Lexer
    decreases |rest|, l.backslash
  {
    if l.backslash && rest != [] && IsDigit(rest[0]) then
      Lex(Put(l, OctalChar(rest)).(backslash := false), rest[OctalLen(rest)..], delim)
    else if rest == [] then Feed(l, NUL, delim)
    else Lex(Feed(l, rest[0], delim), rest[1..], delim)
  }

  function Result(l: Lexer): Outcome {
    if l.dquote || l.squote then BadMessage
    else Words(l.words + if l.cur != [] then [l.cur] else [])
  }

  function Break(src: string, delim: Delim): Outcome { Result(Lex(START, src, delim)) }

  // ---- Lexing undoes quoting ----

  predicate IsQuote(c: char) { c == '\"' || c == '\'' || c == '\\' }

  // Ends a word when it stands bare.
  predicate Delimits(c: char, delim: Delim) {
    match delim
    case Blank => IsSpace(c)
    case Set(chars) => c in chars
  }

  function EscapeChar(c: char, delim: Delim): string {
    if IsQuote(c) || Delimits(c, delim) then ['\\', c] else [c]
  }

  function Escape(word: string, delim: Delim): string {
    if word == [] then []
    else EscapeChar(word[0], delim) + Escape(word[1..], delim)
  }

  // A character that a backslash turns into something else.
  predicate Escaping(c: char) {
    '0' <= c <= '9' || c == 'a' || c == 'b' || c == 'f' || c == 'n' || c == 'r' || c == 't' || c == 'v'
  }

  ghost predicate PlainDelims(delim: Delim) {
    forall c :: Delimits(c, delim) ==> !Escaping(c)
  }

  ghost predicate NulFree(word: string) { NUL !in word }

  function Open(words: seq<string>, cur: string): Lexer { Lexer(false, false, false, words, cur) }

  lemma {:induction false} LexEscape(words: seq<string>, cur: string, word: string, rest: string, delim: Delim)
    requires PlainDelims(delim) && NulFree(word)
    ensures Lex(Open(words, cur), Escape(word, delim) + rest, delim) == Lex(Open(words, cur + word), rest, delim)
    decreases |word|
  {
    if word == [] {
      assert Escape(word, delim) + rest == rest && cur + word == cur;
    } else {
      EscapeStep(words, cur, word, rest, delim);
      LexEscape(words, cur + [word[0]], word[1..], rest, delim);
      Regroup(cur, word);
    }
  }

  lemma {:induction false} Regroup(cur: string, word: string)
    requires word != []
    ensures cur + [word[0]] + word[1..] == cur + word
  {
  }

  lemma {:induction false} EscapeStep(words: seq<string>, cur: string, word: string, rest: string, delim: Delim)
    requires PlainDelims(delim) && NulFree(word) && word != []
    ensures Lex(Open(words, cur), Escape(word, delim) + rest, delim)
         == Lex(Open(words, cur + [word[0]]), Escape(word[1..], delim) + rest, delim)
  {
    var more := Escape(word[1..], delim) + rest;
    assert Escape(word, delim) + rest == EscapeChar(word[0], delim) + more;
    LexEscapeChar(words, cur, word[0], more, delim);
  }

  lemma {:induction false} LexEscapeChar(words: seq<string>, cur: string, c: char, more: string, delim: Delim)
    requires c != NUL && (Delimits(c, delim) ==> !Escaping(c))
    ensures Lex(Open(words, cur), EscapeChar(c, delim) + more, delim) == Lex(Open(words, cur + [c]), more, delim)
  {
    if IsQuote(c) || Delimits(c, delim) {
      var all := ['\\', c] + more;
      assert all[1..] == [c] + more && all[1..][1..] == more;
      assert Feed(Open(words, cur), '\\', delim) == Open(words, cur).(backslash := true);
      assert Feed(Open(words, cur).(backslash := true), c, delim) == Open(words, cur + [c]);
    } else {
      assert ([c] + more)[1..] == more;
      assert Feed(Open(words, cur), c, delim) == Open(words, cur + [c]);
    }
  }

  function Join(words: seq<string>, sep: char, delim: Delim): string
    requires words != []
  {
    if |words| == 1 then Escape(words[0], delim)
    else Escape(words[0], delim) + [sep] + Join(words[1..], sep, delim)
  }

  // The words that come back.  White space takes empty words along, and so does the
  // NUL at the end with nil delimiters; with a delimiter string the NUL ends any word.
  function Kept(words: seq<string>, sep: char, delim: Delim): seq<string>
    requires words != []
  {
    var gone := words[0] == [] && (delim.Blank? || (|words| > 1 && IsSpace(sep)));
    var more := if |words| == 1 then [] else Kept(words[1..], sep, delim);
    if gone then more else [words[0]] + more
  }

  // No word is lost: none is empty, but for the last with a delimiter string, or the
  // separator is no space.
  ghost predicate Separates(sep: char, delim: Delim, words: seq<string>) {
    || (delim.Set? && !IsSpace(sep))
    || forall i :: 0 <= i < |words| && (delim.Blank? || i < |words| - 1) ==> words[i] != []
  }

  predicate IsSeparator(sep: char, delim: Delim) { Delimits(sep, delim) && !IsQuote(sep) }

  lemma {:induction false} KeptIff(words: seq<string>, sep: char, delim: Delim)
    requires words != [] && IsSeparator(sep, delim)
    ensures |Kept(words, sep, delim)| <= |words|
    ensures Kept(words, sep, delim) == words <==> Separates(sep, delim, words)
    ensures |Kept(words, sep, delim)| == |words| <==> Separates(sep, delim, words)
  {
    if |words| > 1 {
      var more := words[1..];
      KeptIff(more, sep, delim);
      assert words == [words[0]] + more;
      assert forall i :: 0 <= i < |more| ==> more[i] == words[i + 1];
      SeparatesMore(sep, delim, words);
    }
  }

  lemma {:induction false} SeparatesMore(sep: char, delim: Delim, words: seq<string>)
    requires |words| > 1
    ensures Separates(sep, delim, words) <==>
            Separates(sep, delim, words[1..]) && ((delim.Set? && !IsSpace(sep)) || words[0] != [])
  {
    if Separates(sep, delim, words[1..]) && words[0] != [] && !(delim.Set? && !IsSpace(sep)) {
      forall i | 0 <= i < |words| && (delim.Blank? || i < |words| - 1) ensures words[i] != [] {
        if i > 0 { assert words[1..][i - 1] == words[i]; }
      }
    }
  }

  lemma {:induction false} LexJoin(done: seq<string>, words: seq<string>, sep: char, delim: Delim)
    requires words != [] && PlainDelims(delim) && IsSeparator(sep, delim)
    requires forall i :: 0 <= i < |words| ==> NulFree(words[i])
    ensures Lex(Open(done, []), Join(words, sep, delim), delim) == Open(done + Kept(words, sep, delim), [])
    decreases |words|
  {
    if |words| == 1 {
      LexWord(done, words[0], [], delim);
      assert Escape(words[0], delim) + [] == Escape(words[0], delim);
      LexLast(done, words, sep, delim);
    } else {
      LexJoinStep(done, words, sep, delim);
      LexJoin(After(done, words[0], sep, delim), words[1..], sep, delim);
      AfterKept(done, words, sep, delim);
    }
  }

  // The words ended once the separator behind `word` is read.
  function After(done: seq<string>, word: string, sep: char, delim: Delim): seq<string> {
    if word == [] && (delim.Blank? || IsSpace(sep)) then done else done + [word]
  }

  lemma {:induction false} AfterKept(done: seq<string>, words: seq<string>, sep: char, delim: Delim)
    requires |words| > 1
    ensures After(done, words[0], sep, delim) + Kept(words[1..], sep, delim) == done + Kept(words, sep, delim)
  {
    var more := Kept(words[1..], sep, delim);
    assert (done + [words[0]]) + more == done + ([words[0]] + more);
  }

  lemma {:induction false} LexLast(done: seq<string>, words: seq<string>, sep: char, delim: Delim)
    requires |words| == 1
    ensures Lex(Open(done, words[0]), [], delim) == Open(done + Kept(words, sep, delim), [])
  {
    assert done + [] == done;
  }

  lemma {:induction false} LexWord(done: seq<string>, word: string, rest: string, delim: Delim)
    requires PlainDelims(delim) && NulFree(word)
    ensures Lex(Open(done, []), Escape(word, delim) + rest, delim) == Lex(Open(done, word), rest, delim)
  {
    LexEscape(done, [], word, rest, delim);
    assert [] + word == word;
  }

  lemma {:induction false} JoinSplit(words: seq<string>, sep: char, delim: Delim)
    requires |words| > 1
    ensures Join(words, sep, delim) == Escape(words[0], delim) + ([sep] + Join(words[1..], sep, delim))
  {
  }

  lemma {:induction false} LexJoinStep(done: seq<string>, words: seq<string>, sep: char, delim: Delim)
    requires |words| > 1 && PlainDelims(delim) && IsSeparator(sep, delim) && NulFree(words[0])
    ensures Lex(Open(done, []), Join(words, sep, delim), delim)
         == Lex(Open(After(done, words[0], sep, delim), []), Join(words[1..], sep, delim), delim)
  {
    var more := Join(words[1..], sep, delim);
    JoinSplit(words, sep, delim);
    LexWord(done, words[0], [sep] + more, delim);
    LexSeparator(done, words[0], sep, more, delim);
  }

  lemma {:induction false} LexSeparator(done: seq<string>, word: string, sep: char, more: string, delim: Delim)
    requires IsSeparator(sep, delim)
    ensures Lex(Open(done, word), [sep] + more, delim) == Lex(Open(After(done, word, sep, delim), []), more, delim)
  {
    assert ([sep] + more)[1..] == more;
    assert Feed(Open(done, word), sep, delim) == Open(After(done, word, sep, delim), []);
  }

  // Words quoted with backslashes and joined by a separator: exactly the words kept
  // come back, so all of them do if and only if none is lost.
  lemma {:induction false} LexUndoesEscaping(words: seq<string>, sep: char, delim: Delim)
    requires words != [] && PlainDelims(delim) && IsSeparator(sep, delim)
    requires forall i :: 0 <= i < |words| ==> NulFree(words[i])
    ensures Break(Join(words, sep, delim), delim) == Words(Kept(words, sep, delim))
    ensures Break(Join(words, sep, delim), delim) == Words(words) <==> Separates(sep, delim, words)
  {
    LexJoin([], words, sep, delim);
    var kept := Kept(words, sep, delim);
    assert [] + kept == kept && kept + [] == kept;
    KeptIff(words, sep, delim);
  }

  ghost predicate UndoesEscaping(sep: char, delim: Delim) {
    forall words: seq<string> :: words != [] && (forall i :: 0 <= i < |words| ==> NulFree(words[i])) ==>
      (Break(Join(words, sep, delim), delim) == Words(words) <==> Separates(sep, delim, words))
  }

  // For any separator: the words come back whenever none is lost exactly when no
  // delimiter is a digit or a letter that a backslash gives another meaning.
  lemma {:induction false} UndoesEscapingIff(sep: char, delim: Delim)
    requires (delim.Set? ==> NUL !in delim.chars) && IsSeparator(sep, delim)
    ensures UndoesEscaping(sep, delim) <==> PlainDelims(delim)
  {
    if PlainDelims(delim) {
      forall words: seq<string> | words != [] && forall i :: 0 <= i < |words| ==> NulFree(words[i])
        ensures Break(Join(words, sep, delim), delim) == Words(words) <==> Separates(sep, delim, words)
      {
        LexUndoesEscaping(words, sep, delim);
      }
    } else {
      var c :| Delimits(c, delim) && Escaping(c);
      EscapeFails(c, delim);
      assert Join([[c]], sep, delim) == Escape([c], delim);
      assert NulFree([c]) && Separates(sep, delim, [[c]]);
    }
  }

  // The word of one such character comes back as something else.
  lemma {:induction false} EscapeFails(c: char, delim: Delim)
    requires delim.Set? && c in delim.chars && c != NUL && Escaping(c)
    ensures Break(Escape([c], delim), delim) != Words([[c]])
  {
    var e := ['\\', c];
    assert Escape([c], delim) == e && e[1..] == [c];
    var l := START.(backslash := true);
    assert Lex(START, e, delim) == Lex(l, [c], delim);
    if IsDigit(c) { DigitFails(c, delim); } else { LetterFails(c, delim); }
  }

  lemma {:induction false} LexOne(words: seq<string>, cur: string, c: char, delim: Delim)
    requires delim.Set?
    ensures Lex(Open(words, cur), [], delim) == Open(words + [cur], [])
    ensures c in delim.chars && !IsQuote(c) && cur != [] ==>
      Lex(Open(words, cur), [c], delim) == Open(words + [cur] + [[]], [])
  {
    assert [c][1..] == [];
  }

  lemma {:induction false} DigitFails(c: char, delim: Delim)
    requires delim.Set? && c in delim.chars && IsDigit(c)
    ensures Result(Lex(START.(backslash := true), [c], delim)) != Words([[c]])
  {
    var x := OctalChar([c]);
    assert Put(START, x) == Open([], [x]);
    assert [c][..1] == [c] && [c][1..] == [] && [c][0..] == [c];
    LexOne([], [x], c, delim);
    if IsOctal(c) {
      assert OctalLen([c]) == 1 && OctalValue([c]) == c as int - '0' as int;
      assert Lex(START.(backslash := true), [c], delim) == Open([[x]], []);
      assert [[x]][0][0] != [[c]][0][0];
    } else {
      assert OctalLen([c]) == 0;
      assert Lex(START.(backslash := true), [c], delim) == Open([[x], []], []);
    }
  }

  lemma {:induction false} LetterFails(c: char, delim: Delim)
    requires delim.Set? && !IsDigit(c) && Unescape(c) != c
    ensures Result(Lex(START.(backslash := true), [c], delim)) != Words([[c]])
  {
    var u := Unescape(c);
    assert [c][1..] == [] && Put(START, u) == Open([], [u]);
    LexOne([], [u], c, delim);
    assert Lex(START.(backslash := true), [c], delim) == Open([[u]], []);
    assert [[u]][0][0] != [[c]][0][0];
  }

  // ---- The same for words in quotes of either kind, whatever the delimiters ----

  predicate Quotes(q: char) { q == '\"' || q == '\'' }

  function InsideChar(c: char, q: char): string { if c == q || c == '\\' then ['\\', c] else [c] }

  function Inside(word: string, q: char): string {
    if word == [] then []
    else InsideChar(word[0], q) + Inside(word[1..], q)
  }

  function Quoted(word: string, q: char): string { [q] + Inside(word, q) + [q] }

  function Within(words: seq<string>, cur: string, q: char): Lexer {
    Lexer(false, q == '\"', q == '\'', words, cur)
  }

  lemma {:induction false} LexInside(words: seq<string>, cur: string, word: string, q: char, rest: string, delim: Delim)
    requires Quotes(q)
    ensures Lex(Within(words, cur, q), Inside(word, q) + rest, delim) == Lex(Within(words, cur + word, q), rest, delim)
    decreases |word|
  {
    if word == [] {
      assert Inside(word, q) + rest == rest && cur + word == cur;
    } else {
      InsideStep(words, cur, word, q, rest, delim);
      LexInside(words, cur + [word[0]], word[1..], q, rest, delim);
      Regroup(cur, word);
    }
  }

  lemma {:induction false} InsideStep(words: seq<string>, cur: string, word: string, q: char, rest: string,
                                       delim: Delim)
    requires Quotes(q) && word != []
    ensures Lex(Within(words, cur, q), Inside(word, q) + rest, delim)
         == Lex(Within(words, cur + [word[0]], q), Inside(word[1..], q) + rest, delim)
  {
    var c := word[0];
    var more := Inside(word[1..], q) + rest;
    assert Inside(word, q) + rest == InsideChar(c, q) + more;
    LexInsideChar(words, cur, c, q, more, delim);
  }

  lemma {:induction false} LexInsideChar(words: seq<string>, cur: string, c: char, q: char, more: string, delim: Delim)
    requires Quotes(q)
    ensures Lex(Within(words, cur, q), InsideChar(c, q) + more, delim) == Lex(Within(words, cur + [c], q), more, delim)
  {
    if c == q || c == '\\' {
      var all := ['\\', c] + more;
      assert all[1..] == [c] + more && all[1..][1..] == more;
      assert Feed(Within(words, cur, q), '\\', delim) == Within(words, cur, q).(backslash := true);
      assert Feed(Within(words, cur, q).(backslash := true), c, delim) == Within(words, cur + [c], q);
    } else {
      assert ([c] + more)[1..] == more;
      assert Feed(Within(words, cur, q), c, delim) == Within(words, cur + [c], q);
    }
  }

  lemma {:induction false} LexOpened(words: seq<string>, word: string, q: char, rest: string, delim: Delim)
    requires Quotes(q)
    ensures Lex(Open(words, []), [q] + (Inside(word, q) + rest), delim) == Lex(Within(words, word, q), rest, delim)
  {
    var all := [q] + (Inside(word, q) + rest);
    assert all[1..] == Inside(word, q) + rest;
    assert Feed(Open(words, []), q, delim) == Within(words, [], q);
    LexInside(words, [], word, q, rest, delim);
    assert [] + word == word;
  }

  lemma {:induction false} LexQuoted(words: seq<string>, word: string, q: char, rest: string, delim: Delim)
    requires Quotes(q)
    ensures Lex(Open(words, []), Quoted(word, q) + rest, delim) == Lex(Open(words, word), rest, delim)
  {
    var tail := [q] + rest;
    assert Quoted(word, q) + rest == [q] + (Inside(word, q) + tail);
    LexOpened(words, word, q, tail, delim);
    assert tail[1..] == rest;
    assert Feed(Within(words, word, q), q, delim) == Open(words, word);
  }

  function JoinQuoted(words: seq<string>, q: char, sep: char): string
    requires words != []
  {
    if |words| == 1 then Quoted(words[0], q) else Quoted(words[0], q) + ([sep] + JoinQuoted(words[1..], q, sep))
  }

  lemma {:induction false} LexJoinQuoted(done: seq<string>, words: seq<string>, q: char, sep: char, delim: Delim)
    requires words != [] && Quotes(q) && IsSeparator(sep, delim)
    ensures Lex(Open(done, []), JoinQuoted(words, q, sep), delim) == Open(done + Kept(words, sep, delim), [])
    decreases |words|
  {
    if |words| == 1 {
      LexQuoted(done, words[0], q, [], delim);
      assert Quoted(words[0], q) + [] == Quoted(words[0], q);
      LexLast(done, words, sep, delim);
    } else {
      var more := JoinQuoted(words[1..], q, sep);
      LexQuoted(done, words[0], q, [sep] + more, delim);
      LexSeparator(done, words[0], sep, more, delim);
      LexJoinQuoted(After(done, words[0], sep, delim), words[1..], q, sep, delim);
      AfterKept(done, words, sep, delim);
    }
  }

  lemma {:induction false} LexUndoesQuoting(words: seq<string>, q: char, sep: char, delim: Delim)
    requires words != [] && Quotes(q) && IsSeparator(sep, delim)
    ensures Break(JoinQuoted(words, q, sep), delim) == Words(Kept(words, sep, delim))
    ensures Break(JoinQuoted(words, q, sep), delim) == Words(words) <==> Separates(sep, delim, words)
  {
    LexJoinQuoted([], words, q, sep, delim);
    var kept := Kept(words, sep, delim);
    assert [] + kept == kept && kept + [] == kept;
    KeptIff(words, sep, delim);
  }

  // A quote that is opened and not closed is an error, whatever comes before it.
  lemma {:induction false} OpenQuoteFails(word: string, q: char, delim: Delim)
    requires Quotes(q)
    ensures Break([q] + Inside(word, q), delim) == BadMessage
  {
    assert [q] + (Inside(word, q) + []) == [q] + Inside(word, q);
    LexOpened([], word, q, [], delim);
    assert Lex(Within([], word, q), [], delim) == Feed(Within([], word, q), NUL, delim);
  }

  // ---- Characters written as octal digits or as letters ----

  function OctalDigit(d: nat): (c: char)
    requires d < 8
    ensures IsOctal(c) && c as int - '0' as int == d
  {
    ('0' as int + d) as char
  }

  // A number in base 8.
  function Numeral(n: nat): (s: string)
    ensures s != [] && forall i :: 0 <= i < |s| ==> IsOctal(s[i])
  {
    if n < 8 then [OctalDigit(n)] else Numeral(n / 8) + [OctalDigit(n % 8)]
  }

  lemma {:induction false} NumeralValue(n: nat)
    ensures OctalValue(Numeral(n)) == n
  {
    var s := Numeral(n);
    if n < 8 {
      assert s[..0] == [];
    } else {
      assert s[..|s| - 1] == Numeral(n / 8);
      NumeralValue(n / 8);
    }
  }

  lemma {:induction false} OctalLenOf(digits: string, rest: string)
    requires (forall i :: 0 <= i < |digits| ==> IsOctal(digits[i])) && (rest == [] || !('0' <= rest[0] <= '7'))
    ensures OctalLen(digits + rest) == |digits|
  {
    if digits == [] {
      assert digits + rest == rest;
    } else {
      OctalLenOf(digits[1..], rest);
      assert (digits + rest)[1..] == digits[1..] + rest;
    }
  }

  // What a numeral is read as: the number, modulo 256, if it fits 64 bits.
  lemma {:induction false} NumeralRead(n: nat, rest: string)
    requires rest == [] || !('0' <= rest[0] <= '7')
    ensures OctalChar(Numeral(n) + rest) == (if n < 0x1_0000_0000_0000_0000 then n % 256 else 255) as char
  {
    OctalLenOf(Numeral(n), rest);
    NumeralValue(n);
    assert (Numeral(n) + rest)[..|Numeral(n)|] == Numeral(n);
  }

  lemma {:induction false} OneMoreDigit(digits: string, d: nat)
    requires d < 8 && forall i :: 0 <= i < |digits| ==> IsOctal(digits[i])
    ensures OctalValue(digits + [OctalDigit(d)]) == 8 * OctalValue(digits) + d
  {
    assert (digits + [OctalDigit(d)])[..|digits|] == digits;
  }

  lemma {:induction false} ThreeDigitsValue(a: nat, b: nat, c: nat)
    requires a < 8 && b < 8 && c < 8
    ensures OctalValue([OctalDigit(a), OctalDigit(b), OctalDigit(c)]) == 64 * a + 8 * b + c
  {
    OneMoreDigit([], a);
    OneMoreDigit([OctalDigit(a)], b);
    OneMoreDigit([OctalDigit(a), OctalDigit(b)], c);
    assert [] + [OctalDigit(a)] == [OctalDigit(a)];
    assert [OctalDigit(a)] + [OctalDigit(b)] == [OctalDigit(a), OctalDigit(b)];
    assert [OctalDigit(a), OctalDigit(b)] + [OctalDigit(c)] == [OctalDigit(a), OctalDigit(b), OctalDigit(c)];
  }

  // Any three octal digits are one character.
  lemma {:induction false} ThreeDigits(a: nat, b: nat, c: nat, rest: string)
    requires a < 8 && b < 8 && c < 8 && (rest == [] || !('0' <= rest[0] <= '7'))
    ensures var s := [OctalDigit(a), OctalDigit(b), OctalDigit(c)] + rest;
            OctalLen(s) == 3 && OctalChar(s) == ((64 * a + 8 * b + c) % 256) as char
  {
    var digits := [OctalDigit(a), OctalDigit(b), OctalDigit(c)];
    OctalLenOf(digits, rest);
    ThreeDigitsValue(a, b, c);
    assert (digits + rest)[..3] == digits;
  }

  // The seven characters from BEL to CR have letters.
  predicate HasLetter(c: char) { 7 <= c as int <= 13 }

  function LetterOf(c: char): char
    requires HasLetter(c)
  {
    if c == 7 as char then 'a' else if c == 8 as char then 'b' else if c == 9 as char then 't'
    else if c == 10 as char then 'n' else if c == 11 as char then 'v' else if c == 12 as char then 'f' else 'r'
  }

  predicate IsByte(c: char) { c as int < 256 }

  function OctalText(c: char): string
    requires IsByte(c)
  {
    [OctalDigit(c as int / 8 / 8), OctalDigit(c as int / 8 % 8), OctalDigit(c as int % 8)]
  }

  function WrittenChar(c: char, letters: bool): string
    requires IsByte(c)
  {
    ['\\'] + if letters && HasLetter(c) then [LetterOf(c)] else OctalText(c)
  }

  ghost predicate AllBytes(word: string) { forall i :: 0 <= i < |word| ==> IsByte(word[i]) }

  function Written(word: string, letters: bool): string
    requires AllBytes(word)
  {
    if word == [] then [] else WrittenChar(word[0], letters) + Written(word[1..], letters)
  }

  lemma {:induction false} LexBackslash(words: seq<string>, cur: string, more: string, delim: Delim)
    ensures Lex(Open(words, cur), ['\\'] + more, delim) == Lex(Open(words, cur).(backslash := true), more, delim)
  {
    assert (['\\'] + more)[1..] == more;
    assert Feed(Open(words, cur), '\\', delim) == Open(words, cur).(backslash := true);
  }

  lemma {:induction false} LexLetter(words: seq<string>, cur: string, c: char, more: string, delim: Delim)
    requires HasLetter(c)
    ensures Lex(Open(words, cur).(backslash := true), [LetterOf(c)] + more, delim)
         == Lex(Open(words, cur + [c]), more, delim)
  {
    assert ([LetterOf(c)] + more)[1..] == more;
    assert Feed(Open(words, cur).(backslash := true), LetterOf(c), delim) == Open(words, cur + [c]);
  }

  lemma {:induction false} LexDigits(words: seq<string>, cur: string, c: char, more: string, delim: Delim)
    requires IsByte(c) && (more == [] || !('0' <= more[0] <= '7'))
    ensures Lex(Open(words, cur).(backslash := true), OctalText(c) + more, delim)
         == Lex(Open(words, cur + [c]), more, delim)
  {
    var l := Open(words, cur).(backslash := true);
    OctalTextRead(c, more);
    assert (OctalText(c) + more)[3..] == more;
    assert Put(l, c).(backslash := false) == Open(words, cur + [c]);
  }

  lemma {:induction false} OctalTextRead(c: char, more: string)
    requires IsByte(c) && (more == [] || !('0' <= more[0] <= '7'))
    ensures OctalLen(OctalText(c) + more) == 3 && OctalChar(OctalText(c) + more) == c
  {
    var n := c as int;
    EightsOf(n);
    ThreeDigits(n / 8 / 8, n / 8 % 8, n % 8, more);
  }

  lemma {:induction false} EightsOf(n: nat)
    requires n < 256
    ensures n / 8 / 8 < 8 && (64 * (n / 8 / 8) + 8 * (n / 8 % 8) + n % 8) % 256 == n
  {
    var q := n / 8;
    assert n == 8 * q + n % 8 && q == 8 * (q / 8) + q % 8;
  }

  lemma {:induction false} LexWrittenChar(words: seq<string>, cur: string, c: char, letters: bool, more: string,
                                           delim: Delim)
    requires IsByte(c) && (more == [] || !('0' <= more[0] <= '7'))
    ensures Lex(Open(words, cur), WrittenChar(c, letters) + more, delim) == Lex(Open(words, cur + [c]), more, delim)
  {
    var text := if letters && HasLetter(c) then [LetterOf(c)] else OctalText(c);
    assert WrittenChar(c, letters) + more == ['\\'] + (text + more);
    LexBackslash(words, cur, text + more, delim);
    if letters && HasLetter(c) {
      LexLetter(words, cur, c, more, delim);
    } else {
      LexDigits(words, cur, c, more, delim);
    }
  }

  lemma {:induction false} WrittenSplit(word: string, letters: bool, rest: string)
    requires AllBytes(word) && word != [] && (rest == [] || !('0' <= rest[0] <= '7'))
    ensures var more := Written(word[1..], letters) + rest;
            && Written(word, letters) + rest == WrittenChar(word[0], letters) + more
            && (more == [] || !('0' <= more[0] <= '7'))
  {
    var tail := Written(word[1..], letters);
    assert (WrittenChar(word[0], letters) + tail) + rest == WrittenChar(word[0], letters) + (tail + rest);
    if tail == [] { assert tail + rest == rest; } else { assert (tail + rest)[0] == tail[0] == '\\'; }
  }

  lemma {:induction false} WrittenStep(words: seq<string>, cur: string, word: string, letters: bool, rest: string,
                                        delim: Delim)
    requires AllBytes(word) && word != [] && (rest == [] || !('0' <= rest[0] <= '7'))
    ensures Lex(Open(words, cur), Written(word, letters) + rest, delim)
         == Lex(Open(words, cur + [word[0]]), Written(word[1..], letters) + rest, delim)
  {
    WrittenSplit(word, letters, rest);
    LexWrittenChar(words, cur, word[0], letters, Written(word[1..], letters) + rest, delim);
  }

  lemma {:induction false} LexWritten(words: seq<string>, cur: string, word: string, letters: bool, rest: string,
                                       delim: Delim)
    requires AllBytes(word) && (rest == [] || !('0' <= rest[0] <= '7'))
    ensures Lex(Open(words, cur), Written(word, letters) + rest, delim) == Lex(Open(words, cur + word), rest, delim)
    decreases |word|
  {
    if word == [] {
      assert Written(word, letters) + rest == rest && cur + word == cur;
    } else {
      WrittenStep(words, cur, word, letters, rest, delim);
      LexWritten(words, cur + [word[0]], word[1..], letters, rest, delim);
      Regroup(cur, word);
    }
  }

  function JoinWritten(words: seq<string>, letters: bool, sep: char): string
    requires words != [] && forall i :: 0 <= i < |words| ==> AllBytes(words[i])
  {
    if |words| == 1 then Written(words[0], letters)
    else Written(words[0], letters) + ([sep] + JoinWritten(words[1..], letters, sep))
  }

  lemma {:induction false} LexJoinWritten(done: seq<string>, words: seq<string>, letters: bool, sep: char, delim: Delim)
    requires words != [] && (forall i :: 0 <= i < |words| ==> AllBytes(words[i]))
    requires IsSeparator(sep, delim) && !('0' <= sep <= '7')
    ensures Lex(Open(done, []), JoinWritten(words, letters, sep), delim) == Open(done + Kept(words, sep, delim), [])
    decreases |words|
  {
    assert [] + words[0] == words[0];
    if |words| == 1 {
      LexWritten(done, [], words[0], letters, [], delim);
      assert Written(words[0], letters) + [] == Written(words[0], letters);
      LexLast(done, words, sep, delim);
    } else {
      var more := JoinWritten(words[1..], letters, sep);
      LexWritten(done, [], words[0], letters, [sep] + more, delim);
      LexSeparator(done, words[0], sep, more, delim);
      LexJoinWritten(After(done, words[0], sep, delim), words[1..], letters, sep, delim);
      AfterKept(done, words, sep, delim);
    }
  }

  // Words whose every character is written behind a backslash, as three octal digits, or
  // as its letter where it has one, come back too.
  lemma {:induction false} LexUndoesWriting(words: seq<string>, letters: bool, sep: char, delim: Delim)
    requires words != [] && (forall i :: 0 <= i < |words| ==> AllBytes(words[i]))
    requires IsSeparator(sep, delim) && !('0' <= sep <= '7')
    ensures Break(JoinWritten(words, letters, sep), delim) == Words(Kept(words, sep, delim))
    ensures Break(JoinWritten(words, letters, sep), delim) == Words(words) <==> Separates(sep, delim, words)
  {
    LexJoinWritten([], words, letters, sep, delim);
    var kept := Kept(words, sep, delim);
    assert [] + kept == kept && kept + [] == kept;
    KeptIff(words, sep, delim);
  }

  // ---- Plain words between white space ----

  // A printing character that is no quote and no backslash.
  predicate IsPlain(c: char) { 33 <= c as int <= 126 && c != '\"' && c != '\'' && c != '\\' }

  ghost predicate AllPlain(word: string) { word != [] && forall i :: 0 <= i < |word| ==> IsPlain(word[i]) }

  function JoinPlain(words: seq<string>, sep: char): string
    requires words != []
  {
    if |words| == 1 then words[0] else words[0] + [sep] + JoinPlain(words[1..], sep)
  }

  lemma {:induction false} PlainNeedsNoEscape(word: string)
    requires forall i :: 0 <= i < |word| ==> IsPlain(word[i])
    ensures Escape(word, Blank) == word && NulFree(word)
  {
    if word != [] { PlainNeedsNoEscape(word[1..]); }
  }

  lemma {:induction false} JoinPlainIsJoin(words: seq<string>, sep: char)
    requires words != [] && forall i :: 0 <= i < |words| ==> AllPlain(words[i])
    ensures JoinPlain(words, sep) == Join(words, sep, Blank) && forall i :: 0 <= i < |words| ==> NulFree(words[i])
  {
    PlainNeedsNoEscape(words[0]);
    if |words| > 1 {
      JoinPlainIsJoin(words[1..], sep);
      assert forall i :: 1 <= i < |words| ==> words[i] == words[1..][i - 1];
    }
  }

  // With nil delimiters, words of printing characters come back if any of the six white
  // space characters stands between them.
  lemma {:induction false} BlanksSeparate(words: seq<string>, sep: char)
    requires words != [] && forall i :: 0 <= i < |words| ==> AllPlain(words[i])
    requires sep == ' ' || sep == '\t' || sep == '\n' || sep == '\r' || sep == 11 as char || sep == 12 as char
    ensures Break(JoinPlain(words, sep), Blank) == Words(words)
  {
    JoinPlainIsJoin(words, sep);
    LexUndoesEscaping(words, sep, Blank);
  }

  // ---- How much is written ----

  // What the words take in the buffer, each with a NUL behind it.
  function Flat(words: seq<string>): string {
    if words == [] then [] else Flat(words[..|words| - 1]) + words[|words| - 1] + [NUL]
  }

  // The characters that the vector of pointers is sized by.
  function Solid(s: string): nat {
    if s == [] then 0 else Solid(s[..|s| - 1]) + (if IsAlpha(s[|s| - 1]) then 0 else 1)
  }

  ghost predicate NoLetters(delim: Delim) {
    forall c :: Delimits(c, delim) ==> !('a' <= c <= 'z') && !('A' <= c <= 'Z')
  }

  // The most words that reading the characters up to one more can have ended.
  lemma {:induction false} SolidStep(s: string, i: nat)
    requires i < |s|
    ensures Solid(s[..i + 1]) == Solid(s[..i]) + (if IsAlpha(s[i]) then 0 else 1)
  {
    assert s[..i + 1][..i] == s[..i];
  }

  // ---- The vector and the buffer in memory ----

  datatype Arg = NoArg | At(offset: nat)

  // The C string that starts at an offset.
  function CString(buf: string, offset: nat): string
    decreases |buf| - offset
  {
    if offset >= |buf| || buf[offset] == NUL then [] else [buf[offset]] + CString(buf, offset + 1)
  }

  // A word as a C string: an escape may have put a NUL in the middle.
  function Cut(word: string): string {
    if word == [] || word[0] == NUL then [] else [word[0]] + Cut(word[1..])
  }

  lemma {:induction false} CutIsWord(word: string)
    requires NulFree(word)
    ensures Cut(word) == word
  {
    if word != [] { CutIsWord(word[1..]); }
  }

  lemma {:induction false} ReadBack(before: string, word: string, after: string)
    ensures CString(before + word + [NUL] + after, |before|) == Cut(word)
    decreases |word|
  {
    var buf := before + word + [NUL] + after;
    if word == [] {
      assert buf[|before|] == NUL;
    } else {
      assert buf[|before|] == word[0];
      assert buf == (before + [word[0]]) + word[1..] + [NUL] + after;
      if word[0] != NUL { ReadBack(before + [word[0]], word[1..], after); }
    }
  }

  lemma {:induction false} FlatSplit(words: seq<string>, k: nat) returns (after: string)
    requires k < |words|
    ensures Flat(words) == Flat(words[..k]) + words[k] + [NUL] + after
    decreases |words|
  {
    var front := words[..|words| - 1];
    if k == |words| - 1 {
      after := [];
      assert words[..k] == front;
    } else {
      var a := FlatSplit(front, k);
      after := a + words[|words| - 1] + [NUL];
      assert front[..k] == words[..k];
    }
  }

  class Args {
    const argv: array<Arg>
    const dst: array<char>
    var argc: nat
    var used: nat  // where dst points now
    var prev: nat  // where the word being built starts
    ghost var words: seq<string>
    ghost var cur: string

    ghost predicate Valid()
      reads this, argv, dst
    {
      && used <= dst.Length && argc <= argv.Length
      && argc == |words| && prev == |Flat(words)|
      && dst[..used] == Flat(words) + cur
      && (forall k: nat :: k < argc ==> argv[k] == At(|Flat(words[..k])|))
    }

    constructor (argcmax: nat, size: nat)
      ensures Valid() && words == [] && cur == [] && used == 0
      ensures argv.Length == argcmax && dst.Length == size && fresh(argv) && fresh(dst)
    {
      argv := new Arg[argcmax](_ => NoArg);
      dst := new char[size](_ => NUL);
      argc, used, prev, words, cur := 0, 0, 0, [], [];
    }

    method Put(c: char)
      requires Valid() && used < dst.Length
      modifies this`used, this`cur, dst
      ensures Valid() && cur == old(cur) + [c] && used == old(used) + 1
    {
      dst[used] := c;
      used := used + 1;
      cur := cur + [c];
      assert dst[..used] == old(dst[..used]) + [c];
    }

    method EndWord()
      requires Valid() && used < dst.Length && argc < argv.Length
      modifies this, argv, dst
      ensures Valid() && words == old(words) + [old(cur)] && cur == [] && used == old(used) + 1
    {
      argv[argc] := At(prev);
      argc := argc + 1;
      dst[used] := NUL;
      used := used + 1;
      prev := used;
      ghost var w := words;
      words, cur := words + [cur], [];
      assert words[..|w|] == w;
      assert dst[..used] == old(dst[..used]) + [NUL];
      forall k: nat | k < argc ensures argv[k] == At(|Flat(words[..k])|) {
        if k < |w| { assert words[..k] == w[..k]; }
      }
    }

    // The null pointer behind the last argument.
    method Close()
      requires Valid() && argc < argv.Length
      modifies argv
      ensures argv[argc] == NoArg && forall k: nat :: k < argc ==> Holds(argv, dst, k, Cut(words[k]))
    {
      argv[argc] := NoArg;
      assert Valid();
      forall k: nat | k < argc ensures Holds(argv, dst, k, Cut(words[k])) {
        assert argv[k] == At(|Flat(words[..k])|);
        Reads(k);
      }
    }

    // The k-th argument, as the caller reads it.
    lemma {:induction false} Reads(k: nat)
      requires Valid() && k < argc
      ensures CString(dst[..], |Flat(words[..k])|) == Cut(words[k])
    {
      var after := FlatSplit(words, k);
      ReadBack(Flat(words[..k]), words[k], after + cur + dst[used..]);
      assert dst[..] == dst[..used] + dst[used..];
      assert dst[..] == Flat(words[..k]) + words[k] + [NUL] + (after + cur + dst[used..]);
    }
  }

  // What the loop counts for the size of the vector.
  method Argcmax(s: string) returns (argcmax: nat)
    ensures argcmax == 4 + Solid(s)
  {
    argcmax := 4;
    var i := 0;
    while i < |s|
      invariant 0 <= i <= |s| && argcmax == 4 + Solid(s[..i])
    {
      SolidStep(s, i);
      if !IsAlpha(s[i]) { argcmax := argcmax + 1; }
      i := i + 1;
    }
    assert s[..i] == s;
  }

  // One round of the loop on character c, octal escapes apart.
  method Round(a: Args, backslash: bool, dquote: bool, squote: bool, c: char, delim: Delim)
    returns (dquote': bool, squote': bool, backslash': bool)
    requires a.Valid() && a.used < a.dst.Length
    requires |Feed(Lexer(backslash, dquote, squote, a.words, a.cur), c, delim).words| <= a.argv.Length
    modifies a, a.argv, a.dst
    ensures a.Valid()
    ensures var l := Lexer(backslash, dquote, squote, old(a.words), old(a.cur));
      Feed(l, c, delim) == Lexer(backslash', dquote', squote', a.words, a.cur)
    ensures a.used + (if backslash' then 1 else 0) <= old(a.used) + (if backslash then 1 else 0) + 1
    ensures a.used <= old(a.used) + 1
    ensures c == NUL && a.cur != [] && !dquote' && !squote' ==> backslash
  {
    dquote', squote', backslash' := dquote, squote, false;
    if backslash {
      a.Put(Unescape(c));
    } else if c == '\\' {
      backslash' := true;
    } else if c == '\"' {
      if squote { a.Put(c); } else { dquote' := !dquote; }
    } else if c == '\'' {
      if dquote { a.Put(c); } else { squote' := !squote; }
    } else if dquote || squote {
      a.Put(c);
    } else if delim.Blank? && (c == NUL || IsSpace(c)) {
      if a.used > a.prev { a.EndWord(); }
    } else if delim.Set? && (c in delim.chars || c == NUL) {
      if a.used > a.prev || !IsSpace(c) { a.EndWord(); }
    } else {
      a.Put(c);
    }
  }

  datatype Line = NoLine | Line(s: string)

  const EX_DATAERR: nat := 65

  // The round of the octal branch: `i` is at a digit.
  lemma {:induction false} LexOctal(l: Lexer, s: string, i: nat, delim: Delim)
    requires i < |s| && l.backslash && IsDigit(s[i])
    ensures i + OctalLen(s[i..]) <= |s|
    ensures Lex(l, s[i..], delim)
         == Lex(Put(l, OctalChar(s[i..])).(backslash := false), s[i + OctalLen(s[i..])..], delim)
  {
    assert s[i..][0] == s[i];
    assert s[i..][OctalLen(s[i..])..] == s[i + OctalLen(s[i..])..];
  }

  lemma {:induction false} LexRound(l: Lexer, s: string, i: nat, delim: Delim)
    requires i < |s| && !(l.backslash && IsDigit(s[i]))
    ensures Lex(l, s[i..], delim) == Lex(Feed(l, s[i], delim), s[i + 1..], delim)
  {
    assert s[i..][0] == s[i] && s[i..][1..] == s[i + 1..];
  }

  lemma {:induction false} WordsGrow(l: Lexer, rest: string, delim: Delim)
    ensures |l.words| <= |Lex(l, rest, delim).words|
    decreases |rest|, l.backslash
  {
    if l.backslash && rest != [] && IsDigit(rest[0]) {
      WordsGrow(Put(l, OctalChar(rest)).(backslash := false), rest[OctalLen(rest)..], delim);
    } else if rest != [] {
      WordsGrow(Feed(l, rest[0], delim), rest[1..], delim);
    }
  }

  // One turn of the loop before the NUL: the bytes written, with a pending
  // backslash, stay within the characters read.
  method Turn(s: string, i: nat, delim: Delim, a: Args, backslash: bool, dquote: bool, squote: bool)
    returns (i': nat, dquote': bool, squote': bool, backslash': bool)
    requires NUL !in s && a.Valid() && i < |s|
    requires a.used + (if backslash then 1 else 0) <= i < a.dst.Length
    requires |Lex(Lexer(backslash, dquote, squote, a.words, a.cur), s[i..], delim).words| <= a.argv.Length
    modifies a, a.argv, a.dst
    ensures a.Valid() && i <= i' <= |s| && (i' == i ==> backslash && !backslash')
    ensures a.used + (if backslash' then 1 else 0) <= i'
    ensures Lex(Lexer(backslash', dquote', squote', a.words, a.cur), s[i'..], delim)
         == Lex(Lexer(backslash, dquote, squote, old(a.words), old(a.cur)), s[i..], delim)
  {
    if backslash && IsDigit(s[i]) {
      i' := Octal(s, i, delim, a, dquote, squote);
      dquote', squote', backslash' := dquote, squote, false;
    } else {
      dquote', squote', backslash' := Plain(s, i, delim, a, backslash, dquote, squote);
      i' := i + 1;
    }
  }

  method Octal(s: string, i: nat, delim: Delim, a: Args, ghost dquote: bool, ghost squote: bool) returns (i': nat)
    requires a.Valid() && i < |s| && IsDigit(s[i]) && a.used < i < a.dst.Length
    modifies a`used, a`cur, a.dst
    ensures a.Valid() && i <= i' <= |s| && a.used <= i'
    ensures Lex(Lexer(false, dquote, squote, a.words, a.cur), s[i'..], delim)
         == Lex(Lexer(true, dquote, squote, old(a.words), old(a.cur)), s[i..], delim)
  {
    ghost var l := Lexer(true, dquote, squote, a.words, a.cur);
    LexOctal(l, s, i, delim);
    var c := OctalChar(s[i..]);
    i' := i + OctalLen(s[i..]);
    a.Put(c);
    assert Lexer(false, dquote, squote, a.words, a.cur) == Put(l, c).(backslash := false);
  }

  method Plain(s: string, i: nat, delim: Delim, a: Args, backslash: bool, dquote: bool, squote: bool)
    returns (dquote': bool, squote': bool, backslash': bool)
    requires NUL !in s && a.Valid() && i < |s| && !(backslash && IsDigit(s[i]))
    requires a.used + (if backslash then 1 else 0) <= i < a.dst.Length
    requires |Lex(Lexer(backslash, dquote, squote, a.words, a.cur), s[i..], delim).words| <= a.argv.Length
    modifies a, a.argv, a.dst
    ensures a.Valid()
    ensures a.used + (if backslash' then 1 else 0) <= i + 1
    ensures Lex(Lexer(backslash', dquote', squote', a.words, a.cur), s[i + 1..], delim)
         == Lex(Lexer(backslash, dquote, squote, old(a.words), old(a.cur)), s[i..], delim)
  {
    ghost var l := Lexer(backslash, dquote, squote, a.words, a.cur);
    LexRound(l, s, i, delim);
    WordsGrow(Feed(l, s[i], delim), s[i + 1..], delim);
    dquote', squote', backslash' := Round(a, backslash, dquote, squote, s[i], delim);
  }

  // The loop of clp_breakargs; the last round is the one on the NUL.
  method Loop(s: string, delim: Delim, a: Args) returns (dquote: bool, squote: bool)
    requires NUL !in s && |Lex(START, s, delim).words| <= a.argv.Length
    requires a.Valid() && a.words == [] && a.cur == [] && a.used == 0
    requires a.dst.Length == |s| + 1
    modifies a, a.argv, a.dst
    ensures a.Valid()
    ensures !dquote && !squote && a.cur != [] ==> a.used <= |s|
    ensures exists b :: Lex(START, s, delim) == Lexer(b, dquote, squote, a.words, a.cur)
  {
    var backslash;
    backslash, dquote, squote := false, false, false;
    var i := 0;
    assert s[0..] == s;
    while i < |s|
      invariant 0 <= i <= |s| && a.Valid()
      invariant a.used + (if backslash then 1 else 0) <= i
      invariant Lex(Lexer(backslash, dquote, squote, a.words, a.cur), s[i..], delim) == Lex(START, s, delim)
      decreases |s| - i, backslash
    {
      i, dquote, squote, backslash := Turn(s, i, delim, a, backslash, dquote, squote);
    }
    LexEnd(s, delim, Lexer(backslash, dquote, squote, a.words, a.cur));
    dquote, squote, backslash := Round(a, backslash, dquote, squote, NUL, delim);
    assert Lex(START, s, delim) == Lexer(backslash, dquote, squote, a.words, a.cur);
  }

  lemma {:induction false} LexEnd(s: string, delim: Delim, l: Lexer)
    ensures Lex(l, s[|s|..], delim) == Feed(l, NUL, delim)
  {
    assert s[|s|..] == [];
  }

  // What the program asserts of the size it counted, argc < argcmax, and what its
  // stores into the vector before that need.
  ghost predicate Fits(s: string, delim: Delim) {
    && |Lex(START, s, delim).words| <= 4 + Solid(s)
    && (Break(s, delim).Words? ==> |Break(s, delim).words| < 4 + Solid(s))
  }

  // clp_breakargs wherever its size suffices, which SafeIffNoLetters decides: every
  // write is within the vector and the buffer, and the caller finds exactly the
  // words, each as the C string that an escaped NUL may cut short.
  method ClpBreakargs(src: Line, delim: Delim) returns (rc: nat, argc: nat, argv: array<Arg>, buf: array<char>)
    requires src.Line? ==> NUL !in src.s && Fits(src.s, delim)
    ensures rc == 0 <==> src.Line? && Break(src.s, delim).Words?
    ensures rc != 0 ==> rc == 65 && argc == 0
    ensures rc == 0 ==> argc < argv.Length && argv[argc] == NoArg
    ensures rc == 0 ==> var words := Break(src.s, delim).words;
      argc == |words| && forall k: nat :: k < argc ==> Holds(argv, buf, k, Cut(words[k]))
  {
    rc, argc, argv, buf := EX_DATAERR, 0, new Arg[0], new char[0];
    if src.NoLine? { return; }
    var argcmax := Argcmax(src.s);
    var a := new Args(argcmax, |src.s| + 1);
    var dquote, squote := Loop(src.s, delim, a);
    if dquote || squote { return; }
    assert Result(Lexer(false, false, false, a.words, a.cur)) == Break(src.s, delim);
    if a.used > a.prev { a.EndWord(); }
    assert Break(src.s, delim) == Words(a.words);
    rc, argc, argv, buf := 0, a.argc, a.argv, a.dst;
    a.Close();
  }

  ghost predicate Holds(argv: array<Arg>, buf: array<char>, k: nat, word: string)
    reads argv, buf
  {
    k < argv.Length && argv[k].At? && CString(buf[..], argv[k].offset) == word
  }

  // ---- The vector is large enough exactly when no delimiter is a letter ----

  lemma {:induction false} SolidAppend(s: string, t: string)
    ensures Solid(s + t) == Solid(s) + Solid(t)
  {
    if t == [] {
      assert s + t == s;
    } else {
      var front := t[..|t| - 1];
      assert (s + t)[..|s + t| - 1] == s + front;
      SolidAppend(s, front);
    }
  }

  // Reading a character ends a word only if it is no letter.
  lemma {:induction false} FeedWords(l: Lexer, c: char, delim: Delim)
    requires NoLetters(delim) && c != NUL
    ensures |Feed(l, c, delim).words| <= |l.words| + Solid([c])
  {
    assert [c][..0] == [];
    assert Delimits(c, delim) ==> !IsAlpha(c);
  }

  lemma {:induction false} SolidSplit(s: string, n: nat)
    requires n <= |s|
    ensures Solid(s) == Solid(s[..n]) + Solid(s[n..])
  {
    assert s == s[..n] + s[n..];
    SolidAppend(s[..n], s[n..]);
  }

  lemma {:induction false} FewWords(l: Lexer, rest: string, delim: Delim)
    requires NoLetters(delim) && NUL !in rest
    ensures |Lex(l, rest, delim).words| <= |l.words| + Solid(rest) + 1
    decreases |rest|, l.backslash
  {
    if l.backslash && rest != [] && IsDigit(rest[0]) {
      FewWords(Put(l, OctalChar(rest)).(backslash := false), rest[OctalLen(rest)..], delim);
      SolidSplit(rest, OctalLen(rest));
    } else if rest != [] {
      FeedWords(l, rest[0], delim);
      FewWords(Feed(l, rest[0], delim), rest[1..], delim);
      SolidSplit(rest, 1);
      assert rest[..1] == [rest[0]];
    }
  }

  lemma {:induction false} SafeIffNoLetters(delim: Delim)
    ensures (forall s: string :: NUL !in s ==> Fits(s, delim)) <==> NoLetters(delim)
  {
    if NoLetters(delim) {
      forall s: string | NUL !in s ensures Fits(s, delim) { FewWords(START, s, delim); }
    } else {
      var c :| Delimits(c, delim) && ('a' <= c <= 'z' || 'A' <= c <= 'Z');
      LettersOverflow(c, delim);
      assert NUL !in [c, c, c] && !Fits([c, c, c], delim);
    }
  }

  // Three such letters make four empty words, in a vector of four that also has to
  // hold the final null pointer.
  lemma {:induction false} LettersOverflow(c: char, delim: Delim)
    requires delim.Set? && c in delim.chars && ('a' <= c <= 'z' || 'A' <= c <= 'Z')
    ensures Break([c, c, c], delim) == Words([[], [], [], []]) && Solid([c, c, c]) == 0
  {
    assert [c, c, c][1..] == [c, c] && [c, c][1..] == [c] && [c][1..] == [];
    var e: string := [];
    assert [e] + [e] == [e, e] && [e, e] + [e] == [e, e, e] && [e, e, e] + [e] == [e, e, e, e];
    var l1, l2, l3 := Open([[]], []), Open([[], []], []), Open([[], [], []], []);
    assert Feed(START, c, delim) == l1 && Feed(l1, c, delim) == l2 && Feed(l2, c, delim) == l3;
    assert Lex(START, [c, c, c], delim) == Lex(l1, [c, c], delim) == Lex(l2, [c], delim) == Lex(l3, [], delim);
    assert [c, c, c][..2] == [c, c] && [c, c][..1] == [c] && [c][..0] == [];
    assert Solid([c]) == 0 && Solid([c, c]) == 0;
  }

  // ---- The round trip in memory ----

  ghost predicate AllNulFree(words: seq<string>) { forall i :: 0 <= i < |words| ==> NulFree(words[i]) }

  lemma {:induction false} EscapeNulFree(word: string, delim: Delim, q: char)
    requires NulFree(word)
    ensures NulFree(Escape(word, delim)) && NulFree(Inside(word, q))
  {
    if word != [] { EscapeNulFree(word[1..], delim, q); }
  }

  lemma {:induction false} JoinNulFree(words: seq<string>, sep: char, delim: Delim, q: char)
    requires words != [] && AllNulFree(words) && sep != NUL && q != NUL
    ensures NulFree(Join(words, sep, delim)) && NulFree(JoinQuoted(words, q, sep))
  {
    EscapeNulFree(words[0], delim, q);
    if |words| > 1 { JoinNulFree(words[1..], sep, delim, q); }
  }

  lemma {:induction false} WrittenNulFree(word: string, letters: bool)
    requires AllBytes(word)
    ensures NulFree(Written(word, letters))
  {
    if word != [] {
      WrittenNulFree(word[1..], letters);
      assert NUL !in WrittenChar(word[0], letters);
    }
  }

  lemma {:induction false} JoinWrittenNulFree(words: seq<string>, letters: bool, sep: char)
    requires words != [] && (forall i :: 0 <= i < |words| ==> AllBytes(words[i])) && sep != NUL
    ensures NulFree(JoinWritten(words, letters, sep))
  {
    WrittenNulFree(words[0], letters);
    if |words| > 1 { JoinWrittenNulFree(words[1..], letters, sep); }
  }

  lemma {:induction false} KeptNulFree(words: seq<string>, sep: char, delim: Delim)
    requires words != [] && AllNulFree(words)
    ensures AllNulFree(Kept(words, sep, delim))
  {
    if |words| > 1 { KeptNulFree(words[1..], sep, delim); }
  }

  // The vector points at just these words.
  ghost predicate HoldsAll(argc: nat, argv: array<Arg>, buf: array<char>, words: seq<string>)
    reads argv, buf
  {
    && argc == |words| < argv.Length && argv[argc] == NoArg
    && forall k: nat :: k < argc ==> Holds(argv, buf, k, words[k])
  }

  method BreakKept(s: string, delim: Delim, ghost kept: seq<string>)
    returns (argc: nat, argv: array<Arg>, buf: array<char>)
    requires NUL !in s && Fits(s, delim) && Break(s, delim) == Words(kept) && AllNulFree(kept)
    ensures HoldsAll(argc, argv, buf, kept)
  {
    var rc;
    rc, argc, argv, buf := ClpBreakargs(Line(s), delim);
    forall k: nat | k < argc ensures Holds(argv, buf, k, kept[k]) { CutIsWord(kept[k]); }
  }

  // A caller that escapes its words and joins them finds them in the vector again, and
  // NUL as the end of each.
  method BreakEscaped(words: seq<string>, sep: char, delim: Delim)
    returns (argc: nat, argv: array<Arg>, buf: array<char>)
    requires words != [] && AllNulFree(words)
    requires PlainDelims(delim) && IsSeparator(sep, delim) && (delim.Set? ==> NUL !in delim.chars)
    requires Fits(Join(words, sep, delim), delim)
    ensures HoldsAll(argc, argv, buf, Kept(words, sep, delim))
    ensures HoldsAll(argc, argv, buf, words) <==> Separates(sep, delim, words)
  {
    LexUndoesEscaping(words, sep, delim);
    JoinNulFree(words, sep, delim, '\'');
    KeptNulFree(words, sep, delim);
    KeptIff(words, sep, delim);
    argc, argv, buf := BreakKept(Join(words, sep, delim), delim, Kept(words, sep, delim));
  }

  // So does one that puts them in quotes of either kind, whatever the delimiters mean
  // behind a backslash.
  method BreakQuoted(words: seq<string>, q: char, sep: char, delim: Delim)
    returns (argc: nat, argv: array<Arg>, buf: array<char>)
    requires words != [] && AllNulFree(words) && Quotes(q)
    requires IsSeparator(sep, delim) && (delim.Set? ==> NUL !in delim.chars)
    requires Fits(JoinQuoted(words, q, sep), delim)
    ensures HoldsAll(argc, argv, buf, Kept(words, sep, delim))
    ensures HoldsAll(argc, argv, buf, words) <==> Separates(sep, delim, words)
  {
    LexUndoesQuoting(words, q, sep, delim);
    JoinNulFree(words, sep, delim, q);
    KeptNulFree(words, sep, delim);
    KeptIff(words, sep, delim);
    argc, argv, buf := BreakKept(JoinQuoted(words, q, sep), delim, Kept(words, sep, delim));
  }

  // And one that writes each character as octal digits or as its letter.
  method BreakWritten(words: seq<string>, letters: bool, sep: char, delim: Delim)
    returns (argc: nat, argv: array<Arg>, buf: array<char>)
    requires words != [] && AllNulFree(words) && forall i :: 0 <= i < |words| ==> AllBytes(words[i])
    requires IsSeparator(sep, delim) && !('0' <= sep <= '7') && (delim.Set? ==> NUL !in delim.chars)
    requires Fits(JoinWritten(words, letters, sep), delim)
    ensures HoldsAll(argc, argv, buf, Kept(words, sep, delim))
    ensures HoldsAll(argc, argv, buf, words) <==> Separates(sep, delim, words)
  {
    LexUndoesWriting(words, letters, sep, delim);
    JoinWrittenNulFree(words, letters, sep);
    KeptNulFree(words, sep, delim);
    KeptIff(words, sep, delim);
    argc, argv, buf := BreakKept(JoinWritten(words, letters, sep), delim, Kept(words, sep, delim));
  }
}
