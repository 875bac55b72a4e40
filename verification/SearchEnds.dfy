/** How a typed search request may end: when an operator is left as the last entry
    (proto/search.go, BuildEntries). */
module SearchEnds {
  import opened Bytes
  import opened SearchPack
  import opened SearchBuild
  import opened SearchText

  // ----- the text

  /** A quote is open at the end. */
  predicate Open(s: string) {
    if s == "" then false else if s[|s| - 1] == '"' then !Open(s[..|s| - 1]) else Open(s[..|s| - 1])
  }

  /** Where a new word starts: at the beginning, or after a separator outside quotes. */
  predicate Boundary(head: string) {
    head == "" || (Separator(head[|head| - 1]) && !Open(head))
  }

  predicate NoSeparator(s: string) {
    forall i :: 0 <= i < |s| ==> !Separator(s[i])
  }

  /** The word without its quotes; open tells whether the last quote is open. */
  predicate Shows(shown: string, item: string, open: bool) {
    NoSeparator(shown) && Strip(shown) == item && Open(shown) == open
  }

  /** Only quotes and spaces, and no space is inside quotes. */
  predicate Blank(s: string) {
    s == "" || (var c, front := s[|s| - 1], s[..|s| - 1];
                Blank(front) && (c == '"' || (c == ' ' && !Open(front))))
  }

  predicate LastWord(v: string, head: string, shown: string, item: string, open: bool) {
    v == head + shown && Boundary(head) && Shows(shown, item, open)
  }

  predicate SpacedWord(v: string, head: string, shown: string, blanks: string, item: string, open: bool) {
    v == head + (shown + (" " + blanks)) && Boundary(head) && Shows(shown, item, false)
    && Blank(blanks) && Open(blanks) == open
  }

  /** The text ends with the word item, whatever stands before it. */
  ghost predicate EndsWith(v: string, item: string, open: bool) {
    exists head, shown :: LastWord(v, head, shown, item, open)
  }

  /** The text ends with the word item, at least one space, and nothing but spaces and empty quotes. */
  ghost predicate EndsSpaced(v: string, item: string, open: bool) {
    exists head, shown, blanks :: SpacedWord(v, head, shown, blanks, item, open)
  }

  // ----- one character more

  lemma StripOne(c: char)
    ensures Strip([c]) == if c == '"' then "" else [c]
  {
    assert [c][1..] == "" && Strip("") == "";
  }

  lemma {:induction false} StripConcat(a: string, b: string)
    ensures Strip(a + b) == Strip(a) + Strip(b)
  {
    if a == "" {
      assert a + b == b;
    } else {
      assert (a + b)[0] == a[0] && (a + b)[1..] == a[1..] + b;
      StripConcat(a[1..], b);
    }
  }

  lemma OpenNext(s: string, c: char)
    ensures Open(s + [c]) == if c == '"' then !Open(s) else Open(s)
  {
    assert (s + [c])[..|s|] == s;
  }

  lemma BlankNext(s: string, c: char)
    requires Blank(s) && (c == '"' || (c == ' ' && !Open(s)))
    ensures Blank(s + [c])
  {
    assert (s + [c])[..|s|] == s;
  }

  lemma ShowsNext(shown: string, item: string, open: bool, c: char)
    requires Shows(shown, item, open) && !Separator(c)
    ensures c == '"' ==> Shows(shown + [c], item, !open)
    ensures c != '"' ==> Shows(shown + [c], item + [c], open)
  {
    OpenNext(shown, c);
    StripConcat(shown, [c]);
    StripOne(c);
    assert Strip(shown) + "" == Strip(shown);
  }

  lemma WordNext(v: string, item: string, open: bool, c: char)
    requires EndsWith(v, item, open) && !Separator(c)
    ensures c == '"' ==> EndsWith(v + [c], item, !open)
    ensures c != '"' ==> EndsWith(v + [c], item + [c], open)
  {
    var head, shown :| LastWord(v, head, shown, item, open);
    ShowsNext(shown, item, open, c);
    assert v + [c] == head + (shown + [c]);
    hide Shows, Boundary;
    if c == '"' {
      assert LastWord(v + [c], head, shown + [c], item, !open);
    } else {
      assert LastWord(v + [c], head, shown + [c], item + [c], open);
    }
  }

  lemma NewWord(v: string)
    requires Boundary(v)
    ensures EndsWith(v, "", false)
  {
    assert LastWord(v, v, "", "", false);
  }

  lemma SpaceAfter(v: string, item: string)
    requires EndsWith(v, item, false)
    ensures EndsSpaced(v + " ", item, false)
  {
    var head, shown :| LastWord(v, head, shown, item, false);
    assert v + " " == head + (shown + (" " + ""));
    assert SpacedWord(v + " ", head, shown, "", item, false);
  }

  lemma BlankAfter(v: string, item: string, open: bool, c: char)
    requires EndsSpaced(v, item, open) && (c == '"' || (c == ' ' && !open))
    ensures EndsSpaced(v + [c], item, if c == '"' then !open else open)
  {
    var head, shown, blanks :| SpacedWord(v, head, shown, blanks, item, open);
    OpenNext(blanks, c);
    BlankNext(blanks, c);
    assert v + [c] == head + (shown + (" " + (blanks + [c])));
    hide Shows, Boundary, Blank, Open;
    assert SpacedWord(v + [c], head, shown, blanks + [c], item, if c == '"' then !open else open);
  }

  // ----- what the reader knows of the text

  predicate OperatorLeft(result: seq<Entry>, op: Operator) {
    result != [] && Top(result) == OperatorEntry(op)
  }

  /** The word being read is the last one of the text; an operator is the last entry, with no
      word behind it, only when its name and a space are typed last. */
  ghost predicate Reads(v: string, st: Lex) {
    && st.verbatim == Open(v)
    && (NoSeparator(st.item) ==> EndsWith(v, st.item, st.verbatim))
    && forall op :: st.item == "" && OperatorLeft(st.result, op) ==> EndsSpaced(v, NameOf(op), st.verbatim)
  }

  lemma QuoteReads(v: string, st: Lex)
    requires Reads(v, st)
    ensures Reads(v + ['"'], st.(verbatim := !st.verbatim))
  {
    hide EndsWith, EndsSpaced, NameOf, OperatorLeft;
    OpenNext(v, '"');
    if NoSeparator(st.item) {
      WordNext(v, st.item, st.verbatim, '"');
    }
    forall op | st.item == "" && OperatorLeft(st.result, op)
      ensures EndsSpaced(v + ['"'], NameOf(op), !st.verbatim)
    {
      BlankAfter(v, NameOf(op), st.verbatim, '"');
    }
  }

  lemma LetterReads(v: string, st: Lex, c: char)
    requires Reads(v, st) && c != '"' && !Separator(c)
    ensures Reads(v + [c], st.(item := st.item + [c]))
  {
    hide EndsWith, EndsSpaced, NameOf, OperatorLeft;
    OpenNext(v, c);
    if NoSeparator(st.item + [c]) {
      forall i | 0 <= i < |st.item|
        ensures !Separator(st.item[i])
      {
        assert (st.item + [c])[i] == st.item[i];
      }
      WordNext(v, st.item, st.verbatim, c);
    }
  }

  /** A separator inside quotes. */
  lemma QuotedReads(v: string, st: Lex, c: char)
    requires Reads(v, st) && Separator(c) && st.verbatim && LexChar(st, c).Lexing?
    ensures Reads(v + [c], LexChar(st, c).lex)
  {
    hide EndsWith, EndsSpaced, NameOf, OperatorLeft, Appended;
    OpenNext(v, c);
    assert (st.item + [c])[|st.item|] == c;
  }

  /** A space outside quotes that ends a word. */
  lemma FlushReads(v: string, st: Lex, op: Operator)
    requires Reads(v, st) && !st.verbatim && st.item != "" && FlushItem(st).Lexing?
    requires OperatorLeft(FlushItem(st).lex.result, op)
    ensures EndsSpaced(v + " ", NameOf(op), false)
  {
    hide EndsWith, EndsSpaced;
    assert OperatorOf(st.item) == Some(op);
    assert st.item == NameOf(op) && NoSeparator(st.item);
    SpaceAfter(v, st.item);
  }

  /** A separator outside quotes. */
  lemma SeparatorReads(v: string, st: Lex, c: char)
    requires Reads(v, st) && Separator(c) && !st.verbatim && LexChar(st, c).Lexing?
    ensures Reads(v + [c], LexChar(st, c).lex)
  {
    OpenNext(v, c);
    NewWord(v + [c]);
    var next := LexChar(st, c).lex;
    assert next.item == "" && !next.verbatim by {
      hide Appended;
    }
    hide EndsWith, EndsSpaced, NameOf;
    forall op | OperatorLeft(next.result, op)
      ensures EndsSpaced(v + [c], NameOf(op), false)
    {
      assert c == ' ';
      if st.item != "" {
        assert next == FlushItem(st).lex;
        FlushReads(v, st, op);
      } else {
        assert next == st;
        BlankAfter(v, NameOf(op), false, c);
      }
    }
  }

  lemma CharReads(v: string, st: Lex, c: char)
    requires Reads(v, st) && LexChar(st, c).Lexing?
    ensures Reads(v + [c], LexChar(st, c).lex)
  {
    hide Reads;
    if c == '"' {
      QuoteReads(v, st);
    } else if !Separator(c) {
      LetterReads(v, st, c);
    } else if st.verbatim {
      QuotedReads(v, st, c);
    } else {
      SeparatorReads(v, st, c);
    }
  }

  lemma LexOne(st: Lex, c: char)
    ensures LexAll([c], st) == LexChar(st, c)
  {
    hide LexChar;
    assert [c][1..] == "" && AndThen(LexChar(st, c), "") == LexChar(st, c);
  }

  /** The last character read last. */
  lemma LexTop(v: string, start: Lex)
    requires v != "" && LexAll(v, start).Lexing?
    ensures LexAll(v[..|v| - 1], start).Lexing?
    ensures LexAll(v, start) == LexChar(LexAll(v[..|v| - 1], start).lex, v[|v| - 1])
  {
    hide LexChar;
    var front, last := v[..|v| - 1], [v[|v| - 1]];
    assert v == front + last;
    LexAppend(front, last, start);
    if LexAll(front, start).Lexing? {
      LexOne(LexAll(front, start).lex, v[|v| - 1]);
    }
  }

  lemma {:induction false} AllReads(v: string, start: seq<Entry>)
    requires LexAll(v, Lex(start, "", false)).Lexing? && forall op :: !OperatorLeft(start, op)
    ensures Reads(v, LexAll(v, Lex(start, "", false)).lex)
  {
    hide OperatorLeft, LexChar, EndsSpaced;
    if v == "" {
      NewWord("");
    } else {
      var front := v[..|v| - 1];
      LexTop(v, Lex(start, "", false));
      AllReads(front, start);
      hide Reads;
      CharReads(front, LexAll(front, Lex(start, "", false)).lex, v[|v| - 1]);
      assert front + [v[|v| - 1]] == v;
    }
  }

  // ----- and the other way

  lemma BoundaryReads(head: string, start: Lex)
    requires Boundary(head) && start.item == "" && !start.verbatim && LexAll(head, start).Lexing?
    ensures LexAll(head, start).lex.item == "" && !LexAll(head, start).lex.verbatim
  {
    if head != "" {
      hide LexAll, Appended;
      LexTop(head, start);
      QuotesOpen(head[..|head| - 1], start);
    }
  }

  lemma {:induction false} QuotesOpen(v: string, start: Lex)
    requires !start.verbatim && LexAll(v, start).Lexing?
    ensures LexAll(v, start).lex.verbatim == Open(v)
  {
    hide Appended;
    if v != "" {
      LexTop(v, start);
      hide LexAll;
      QuotesOpen(v[..|v| - 1], start);
    }
  }

  lemma {:induction false} WordReads(shown: string, st: Lex)
    requires NoSeparator(shown) && !st.verbatim
    ensures LexAll(shown, st) == Lexing(Lex(st.result, st.item + Strip(shown), Open(shown)))
  {
    if shown == "" {
      assert st.item + "" == st.item;
    } else {
      var front, c := shown[..|shown| - 1], shown[|shown| - 1];
      WordReads(front, st);
      hide LexSeparator, LexParen, Strip;
      LexAppend(front, [c], st);
      LexOne(LexAll(front, st).lex, c);
      assert shown == front + [c];
      StripConcat(front, [c]);
      StripOne(c);
      assert st.item + (Strip(front) + Strip([c])) == st.item + Strip(front) + Strip([c]);
      assert st.item + Strip(front) + "" == st.item + Strip(front);
    }
  }

  lemma {:induction false} BlankReads(blanks: string, result: seq<Entry>)
    requires Blank(blanks)
    ensures LexAll(blanks, Lex(result, "", false)) == Lexing(Lex(result, "", Open(blanks)))
  {
    if blanks != "" {
      var front, c := blanks[..|blanks| - 1], blanks[|blanks| - 1];
      BlankReads(front, result);
      LexAppend(front, [c], Lex(result, "", false));
      LexOne(LexAll(front, Lex(result, "", false)).lex, c);
      assert blanks == front + [c];
    }
  }

  /** A last word that is an operator's name waits to be ended. */
  lemma LastWordReads(v: string, item: string, start: Lex)
    requires EndsWith(v, item, false) && start.item == "" && !start.verbatim && LexAll(v, start).Lexing?
    ensures LexAll(v, start).lex.item == item && !LexAll(v, start).lex.verbatim
  {
    var head, shown :| LastWord(v, head, shown, item, false);
    LexAppend(head, shown, start);
    BoundaryReads(head, start);
    hide LexAll;
    WordReads(shown, LexAll(head, start).lex);
    assert "" + item == item;
  }

  /** An operator's name and a space after it, once read, leave the operator as the last entry. */
  lemma SpacedReads(v: string, op: Operator, start: Lex)
    requires EndsSpaced(v, NameOf(op), false) && start.item == "" && !start.verbatim && LexAll(v, start).Lexing?
    ensures var last := LexAll(v, start).lex; last.item == "" && !last.verbatim && OperatorLeft(last.result, op)
  {
    hide LexAll, NameOf, Boundary, Shows, Blank, Open, OperatorLeft;
    var head, shown, blanks :| SpacedWord(v, head, shown, blanks, NameOf(op), false);
    var word := head + shown;
    assert LastWord(word, head, shown, NameOf(op), false);
    assert v == word + (" " + blanks);
    hide LastWord, SpacedWord;
    WordAndBlanks(word, blanks, op, start);
  }

  lemma WordAndBlanks(word: string, blanks: string, op: Operator, start: Lex)
    requires EndsWith(word, NameOf(op), false) && Blank(blanks) && !Open(blanks)
    requires start.item == "" && !start.verbatim && LexAll(word + (" " + blanks), start).Lexing?
    ensures var last := LexAll(word + (" " + blanks), start).lex;
            last.item == "" && !last.verbatim && OperatorLeft(last.result, op)
  {
    hide LexAll, EndsWith, NameOf, Blank, Open, OperatorLeft, LexChar;
    LexAppend(word, " " + blanks, start);
    LastWordReads(word, NameOf(op), start);
    var st := LexAll(word, start).lex;
    LexAppend(" ", blanks, st);
    LexOne(st, ' ');
    FlushLeaves(st, op);
    BlankReads(blanks, LexChar(st, ' ').lex.result);
  }

  lemma FlushLeaves(st: Lex, op: Operator)
    requires st.item == NameOf(op) && !st.verbatim && LexChar(st, ' ').Lexing?
    ensures LexChar(st, ' ').lex == Lex(LexChar(st, ' ').lex.result, "", false)
    ensures OperatorLeft(LexChar(st, ' ').lex.result, op)
  {
  }

  // ----- parens

  function Occurrences(s: string, c: char): nat {
    if s == "" then 0 else Occurrences(s[..|s| - 1], c) + if s[|s| - 1] == c then 1 else 0
  }

  lemma AppendedCounts(dst: seq<Entry>, e: Entry, paren: Entry)
    requires paren.IsParen()
    ensures multiset(Appended(dst, e))[paren] == multiset(dst)[paren] + if e == paren then 1 else 0
  {
  }

  lemma CharCounts(st: Lex, c: char, paren: Entry)
    requires paren.IsParen() && LexChar(st, c).Lexing?
    ensures multiset(LexChar(st, c).lex.result)[paren]
            == multiset(st.result)[paren] + if c == (if paren == OpenParen then '(' else ')') then 1 else 0
  {
    hide Appended, OperatorOf;
    forall dst, e
      ensures multiset(Appended(dst, e))[paren] == multiset(dst)[paren] + if e == paren then 1 else 0
    {
      AppendedCounts(dst, e, paren);
    }
  }

  lemma {:induction false} TextCounts(v: string, start: Lex, paren: Entry)
    requires paren.IsParen() && LexAll(v, start).Lexing?
    ensures multiset(LexAll(v, start).lex.result)[paren]
            == multiset(start.result)[paren] + Occurrences(v, if paren == OpenParen then '(' else ')')
  {
    if v != "" {
      LexTop(v, start);
      hide LexAll, LexChar;
      TextCounts(v[..|v| - 1], start, paren);
      CharCounts(LexAll(v[..|v| - 1], start).lex, v[|v| - 1], paren);
    }
  }

  lemma {:induction false} FilterCounts(ps: seq<Primary>, paren: Entry)
    requires paren.IsParen() && forall p :: p in ps ==> p.Value? && p.entry.IsValue()
    ensures multiset(AndTokens(ps))[paren] == 0
  {
    if ps != [] {
      FilterCounts(ps[..|ps| - 1], paren);
      assert ps[|ps| - 1] in ps;
    }
  }

  lemma FolderCounts(paren: Entry)
    requires paren.IsParen()
    ensures multiset(AndTokens([FOLDER_FILTER]))[paren] == 1
  {
    var collection, links := Value(StringEntry("EmuleCollection", [FT_FILETYPE])), Value(StringEntry("ED2K:\\", []));
    assert Tokens(One(links)) == [links.entry] && TokensOf(collection) == [collection.entry];
    assert Tokens(FOLDER_FILTER.query) == [collection.entry, OperatorEntry(NOT), links.entry];
    assert AndTokens([FOLDER_FILTER]) == [OpenParen, collection.entry, OperatorEntry(NOT), links.entry, CloseParen];
  }

  lemma StartCounts(f: Filters, paren: Entry)
    requires paren.IsParen()
    ensures multiset(AndTokens(Conjuncts(f)))[paren] == if f.fileType == "Folder" then 1 else 0
  {
    hide AndTokens;
    if f.fileType == "Folder" {
      FolderCounts(paren);
    } else {
      FilterCounts(Conjuncts(f), paren);
    }
  }

  /** Every paren that is typed becomes an entry, inside quotes too, and no other does but the two around
      the condition for folders. */
  lemma ParensAreEntries(f: Filters, value: string, paren: Entry)
    requires paren.IsParen() && Build(f, value).Entries?
    ensures multiset(Build(f, value).entries)[paren]
            == Occurrences(value, if paren == OpenParen then '(' else ')') + if f.fileType == "Folder" then 1 else 0
  {
    hide AndTokens, Conjuncts, Checked, LexAll, Appended, Occurrences, OperatorOf;
    var start := AndTokens(Conjuncts(f));
    StartCounts(f, paren);
    TextCounts(value, Lex(start, "", false), paren);
    var last := LexAll(value, Lex(start, "", false)).lex;
    AppendedCounts(last.result, StringEntry(last.item, []), paren);
  }

  // ----- the result

  lemma NoFilterOperator(f: Filters, op: Operator)
    ensures !OperatorLeft(AndTokens(Conjuncts(f)), op)
  {
    hide Conjuncts;
    ConjunctsLegal(f);
    if Conjuncts(f) != [] {
      AndTokensEnd(Conjuncts(f));
    }
  }

  /** Whatever is typed: accepted entries end in an operator exactly when its name is the last word
      and a space follows it; an operator at the end is refused exactly when no space does. */
  lemma OperatorAtTheEnd(f: Filters, value: string, op: Operator)
    requires Checked(f, value)
    ensures Build(f, value).Entries? ==>
              (OperatorLeft(Build(f, value).entries, op) <==> EndsSpaced(value, NameOf(op), false))
    ensures Build(f, value).Entries? || Build(f, value) == Failed(OperatorLast) ==>
              (Build(f, value) == Failed(OperatorLast) <==> exists x: Operator :: EndsWith(value, NameOf(x), false))
  {
    forall x
      ensures !OperatorLeft(AndTokens(Conjuncts(f)), x)
    {
      NoFilterOperator(f, x);
    }
    var start := AndTokens(Conjuncts(f));
    hide AndTokens, Conjuncts, EndsWith, EndsSpaced, Utf8Length;
    if LexAll(value, Lex(start, "", false)).Lexing? {
      var last := LexAll(value, Lex(start, "", false)).lex;
      AllReads(value, start);
      forall x: Operator | EndsWith(value, NameOf(x), false)
        ensures last.item == NameOf(x) && !last.verbatim
      {
        LastWordReads(value, NameOf(x), Lex(start, "", false));
      }
      if EndsSpaced(value, NameOf(op), false) {
        SpacedReads(value, op, Lex(start, "", false));
      }
      hide LexAll;
      NamedItem(last.item);
    } else {
      NotOperatorLast(value, Lex(start, "", false));
    }
  }

  /** Before its end a text is refused over other operators. */
  lemma {:induction false} NotOperatorLast(value: string, st: Lex)
    requires LexAll(value, st).LexFailed?
    ensures LexAll(value, st).error != OperatorLast
    decreases |value|
  {
    if LexChar(st, value[0]).Lexing? {
      hide LexChar;
      NotOperatorLast(value[1..], LexChar(st, value[0]).lex);
    }
  }

  lemma NamedItem(item: string)
    ensures OperatorOf(item).Some? ==> item == NameOf(OperatorOf(item).value) && NoSeparator(item)
  {
  }
}
