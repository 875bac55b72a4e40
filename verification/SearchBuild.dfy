/** Search requests: from what the user typed to the infix list of entries
    (proto/search.go, addOperand and BuildEntries). */
module SearchBuild {
  import opened Bytes
  import opened SearchPack

  const MAX_ELEMENT: nat := 20
  const MAX_QUERY: nat := 450

  const FT_FILESIZE: bv8 := 0x02
  const FT_FILETYPE: bv8 := 0x03
  const FT_FILEFORMAT: bv8 := 0x04
  const FT_SOURCES: bv8 := 0x15
  const FT_COMPLETE_SOURCES: bv8 := 0x30
  const FT_MEDIA_LENGTH: bv8 := 0xD3
  const FT_MEDIA_BITRATE: bv8 := 0xD4
  const FT_MEDIA_CODEC: bv8 := 0xD5

  const GREATER: bv8 := 1
  const LESS: bv8 := 2
  const GREATER_EQUAL: bv8 := 3

  datatype Filters = Filters(minSize: nat, maxSize: nat, sourcesCount: nat, completeSourcesCount: nat,
                             fileType: string, fileExtension: string, codec: string,
                             mediaLength: nat, mediaBitrate: nat)

  datatype BuildError =
    | FileTypeTooLong | ExtensionTooLong | CodecTooLong | RequestTooLong | RequestEmpty
    | OperatorFirst | TwoOperators | UnclosedQuote | OperatorLast

  datatype Built = Entries(entries: seq<Entry>) | Failed(error: BuildError)

  /** The number of bytes of a string. */
  function Utf8Length(s: string): nat {
    if s == "" then 0
    else
      var c := s[0] as int;
      (if c < 0x80 then 1 else if c < 0x800 then 2 else if c < 0x1_0000 then 3 else 4) + Utf8Length(s[1..])
  }

  // ----- appending an entry

  predicate EndsOperand(e: Entry) {
    e.IsValue() || e.CloseParen?
  }

  predicate StartsOperand(e: Entry) {
    e.IsValue() || e.OpenParen?
  }

  /** The AND put between two operands that follow each other. */
  function Glue(dst: seq<Entry>): seq<Entry> {
    if dst != [] && EndsOperand(Top(dst)) then [OperatorEntry(AND)] else []
  }

  function Appended(dst: seq<Entry>, e: Entry): seq<Entry> {
    dst + (if StartsOperand(e) then Glue(dst) else []) + [e]
  }

  method AddOperand(dst: seq<Entry>, op: Entry) returns (result: seq<Entry>)
    ensures result == Appended(dst, op)
  {
    result := dst;
    if !op.OperatorEntry? {
      if |dst| > 0 {
        var last := dst[|dst| - 1];
        var hasOperator, hasParen := last.OperatorEntry?, last.IsParen();
        var hasCloseParen := last.CloseParen?;
        if || (!hasParen && !hasOperator && !op.IsParen())
           || (!hasParen && !hasOperator && op.OpenParen?)
           || (hasCloseParen && !op.IsParen())
           || (hasCloseParen && op.OpenParen?)
        {
          result := result + [OperatorEntry(AND)];
        }
      }
    }
    result := result + [op];
  }

  // ----- reading the characters

  /** What is read so far: the entries, the word being read, and whether a quote is open. */
  datatype Lex = Lex(result: seq<Entry>, item: string, verbatim: bool)
  datatype Lexed = Lexing(lex: Lex) | LexFailed(error: BuildError)

  function OperatorOf(item: string): Option<Operator> {
    if item == "AND" then Some(AND) else if item == "OR" then Some(OR) else if item == "NOT" then Some(NOT) else None
  }

  /** Ends the word being read. */
  function FlushItem(st: Lex): Lexed {
    var op := OperatorOf(st.item);
    if op.None? then Lexing(st.(result := Appended(st.result, StringEntry(st.item, [])), item := ""))
    else if st.result == [] then LexFailed(OperatorFirst)
    else if Top(st.result).OperatorEntry? then LexFailed(TwoOperators)
    else Lexing(st.(result := Appended(st.result, OperatorEntry(op.value)), item := ""))
  }

  predicate Separator(c: char) {
    c == ' ' || c == '(' || c == ')'
  }

  function LexSeparator(st: Lex, c: char): Lexed {
    if st.verbatim then Lexing(st.(item := st.item + [c]))
    else if st.item != "" then FlushItem(st)
    else Lexing(st)
  }

  /** Parens become entries even inside quotes. */
  function LexParen(lexed: Lexed, c: char): Lexed {
    if lexed.LexFailed? then lexed
    else
      var st := lexed.lex;
      if c == '(' then Lexing(st.(result := Appended(st.result, OpenParen)))
      else if c == ')' then Lexing(st.(result := Appended(st.result, CloseParen)))
      else lexed
  }

  function LexChar(st: Lex, c: char): Lexed {
    if Separator(c) then LexParen(LexSeparator(st, c), c)
    else if c == '"' then Lexing(st.(verbatim := !st.verbatim))
    else Lexing(st.(item := st.item + [c]))
  }

  function LexAll(value: string, st: Lex): Lexed
    decreases |value|, 0
  {
    if value == "" then Lexing(st) else AndThen(LexChar(st, value[0]), value[1..])
  }

  function AndThen(lexed: Lexed, value: string): Lexed
    decreases |value|, 1
  {
    if lexed.LexFailed? then lexed else LexAll(value, lexed.lex)
  }

  function LexEnd(lexed: Lexed): Built {
    if lexed.LexFailed? then Failed(lexed.error)
    else
      var st := lexed.lex;
      if st.verbatim then Failed(UnclosedQuote)
      else if st.item == "" then Entries(st.result)
      else if OperatorOf(st.item).Some? then Failed(OperatorLast)
      else Entries(Appended(st.result, StringEntry(st.item, [])))
  }

  // ----- the filters

  function NumberFilter(value: nat, id: bv8, operator: bv8): seq<Primary> {
    if value == 0 then [] else [Value(NumericEntry(value, operator, id))]
  }

  function StringFilter(value: string, id: bv8): seq<Primary> {
    if value == "" then [] else [Value(StringEntry(value, [id]))]
  }

  /** Emule collections that are no links. */
  const FOLDER_FILTER: Primary :=
    Group(More(Value(StringEntry("EmuleCollection", [FT_FILETYPE])), NOT, One(Value(StringEntry("ED2K:\\", [])))))

  function TypeFilter(fileType: string): seq<Primary> {
    StringFilter(if fileType == "Arc" || fileType == "Iso" then "Pro" else fileType, FT_FILETYPE)
  }

  function FileConjuncts(f: Filters): seq<Primary> {
    NumberFilter(f.minSize, FT_FILESIZE, GREATER)
    + NumberFilter(f.maxSize, FT_FILESIZE, LESS)
    + NumberFilter(f.sourcesCount, FT_SOURCES, GREATER)
    + NumberFilter(f.completeSourcesCount, FT_COMPLETE_SOURCES, GREATER)
    + StringFilter(f.fileExtension, FT_FILEFORMAT)
    + StringFilter(f.codec, FT_MEDIA_CODEC)
    + NumberFilter(f.mediaLength, FT_MEDIA_LENGTH, GREATER_EQUAL)
    + NumberFilter(f.mediaBitrate, FT_MEDIA_BITRATE, GREATER_EQUAL)
  }

  /** The conditions that the filters add to the user's query. */
  function Conjuncts(f: Filters): seq<Primary> {
    if f.fileType == "Folder" then [FOLDER_FILTER]
    else TypeFilter(f.fileType)
         + if f.fileType == "EmuleCollection" then [] else FileConjuncts(f)
  }

  /** The conditions with AND between them. */
  function AndTokens(ps: seq<Primary>): seq<Entry> {
    if ps == [] then []
    else if |ps| == 1 then TokensOf(ps[0])
    else AndTokens(ps[..|ps| - 1]) + [OperatorEntry(AND)] + TokensOf(ps[|ps| - 1])
  }

  lemma {:induction false} TokensEnd(q: Query)
    requires Legal(q)
    ensures StartsOperand(Tokens(q)[0]) && EndsOperand(Top(Tokens(q)))
    decreases q, 1
  {
    PrimaryTokensEnd(q.first);
    if q.More? {
      TokensEnd(q.rest);
    }
  }

  lemma {:induction false} PrimaryTokensEnd(p: Primary)
    requires LegalPrimary(p)
    ensures StartsOperand(TokensOf(p)[0]) && EndsOperand(Top(TokensOf(p)))
    decreases p, 0
  {
  }

  lemma {:induction false} AndTokensEnd(ps: seq<Primary>)
    requires ps != [] && forall p :: p in ps ==> LegalPrimary(p)
    ensures AndTokens(ps) != [] && EndsOperand(Top(AndTokens(ps)))
  {
    PrimaryTokensEnd(ps[|ps| - 1]);
  }

  /** One more condition is one more operand. */
  lemma AndTokensPush(ps: seq<Primary>, e: Entry)
    requires e.IsValue() && forall p :: p in ps ==> LegalPrimary(p)
    ensures AndTokens(ps + [Value(e)]) == Appended(AndTokens(ps), e)
  {
    var all := ps + [Value(e)];
    assert all[..|all| - 1] == ps && all[|all| - 1] == Value(e);
    if ps != [] {
      AndTokensEnd(ps);
    }
  }

  predicate Checked(f: Filters, value: string) {
    && Utf8Length(f.fileType) <= MAX_ELEMENT
    && Utf8Length(f.fileExtension) <= MAX_ELEMENT
    && Utf8Length(f.codec) <= MAX_ELEMENT
    && Utf8Length(value) <= MAX_QUERY
    && value != ""
  }

  function Refusal(f: Filters, value: string): BuildError
    requires !Checked(f, value)
  {
    if Utf8Length(f.fileType) > MAX_ELEMENT then FileTypeTooLong
    else if Utf8Length(f.fileExtension) > MAX_ELEMENT then ExtensionTooLong
    else if Utf8Length(f.codec) > MAX_ELEMENT then CodecTooLong
    else if Utf8Length(value) > MAX_QUERY then RequestTooLong
    else RequestEmpty
  }

  function Build(f: Filters, value: string): Built {
    if Checked(f, value) then LexEnd(LexAll(value, Lex(AndTokens(Conjuncts(f)), "", false)))
    else Failed(Refusal(f, value))
  }

  // ----- the source's loop

  lemma {:induction false} NonemptyHasBytes(s: string)
    ensures Utf8Length(s) == 0 <==> s == ""
  {
  }

  method AddNumberFilter(result: seq<Entry>, ghost ps: seq<Primary>, value: nat, id: bv8, operator: bv8)
    returns (r: seq<Entry>)
    requires result == AndTokens(ps) && forall p :: p in ps ==> LegalPrimary(p)
    ensures r == AndTokens(ps + NumberFilter(value, id, operator))
  {
    r := result;
    if value != 0 {
      AndTokensPush(ps, NumericEntry(value, operator, id));
      r := AddOperand(r, NumericEntry(value, operator, id));
    } else {
      assert ps + [] == ps;
    }
  }

  method AddStringFilter(result: seq<Entry>, ghost ps: seq<Primary>, value: string, id: bv8)
    returns (r: seq<Entry>)
    requires result == AndTokens(ps) && forall p :: p in ps ==> LegalPrimary(p)
    ensures r == AndTokens(ps + StringFilter(value, id))
  {
    r := result;
    if |value| != 0 {
      AndTokensPush(ps, StringEntry(value, [id]));
      r := AddOperand(r, StringEntry(value, [id]));
    } else {
      assert ps + [] == ps;
    }
  }

  method AddFolderFilter() returns (result: seq<Entry>)
    ensures result == AndTokens([FOLDER_FILTER])
  {
    result := AddOperand([], OpenParen);
    result := AddOperand(result, StringEntry("EmuleCollection", [FT_FILETYPE]));
    result := AddOperand(result, OperatorEntry(NOT));
    result := AddOperand(result, StringEntry("ED2K:\\", []));
    result := AddOperand(result, CloseParen);
    ghost var collection, links := Value(StringEntry("EmuleCollection", [FT_FILETYPE])), Value(StringEntry("ED2K:\\",
        []));
    assert TokensOf(collection) == [collection.entry] && TokensOf(links) == [links.entry];
    assert Tokens(One(links)) == [links.entry];
    assert Tokens(FOLDER_FILTER.query) == [collection.entry, OperatorEntry(NOT), links.entry];
  }

  method AddFileFilters(f: Filters, start: seq<Entry>, ghost ps0: seq<Primary>) returns (result: seq<Entry>)
    requires start == AndTokens(ps0) && forall p :: p in ps0 ==> LegalPrimary(p)
    ensures result == AndTokens(ps0 + FileConjuncts(f))
  {
    hide AndTokens;
    ghost var ps := ps0;
    result := AddNumberFilter(start, ps, f.minSize, FT_FILESIZE, GREATER);
    ps := ps + NumberFilter(f.minSize, FT_FILESIZE, GREATER);
    result := AddNumberFilter(result, ps, f.maxSize, FT_FILESIZE, LESS);
    ps := ps + NumberFilter(f.maxSize, FT_FILESIZE, LESS);
    result := AddNumberFilter(result, ps, f.sourcesCount, FT_SOURCES, GREATER);
    ps := ps + NumberFilter(f.sourcesCount, FT_SOURCES, GREATER);
    result := AddNumberFilter(result, ps, f.completeSourcesCount, FT_COMPLETE_SOURCES, GREATER);
    ps := ps + NumberFilter(f.completeSourcesCount, FT_COMPLETE_SOURCES, GREATER);
    result := AddStringFilter(result, ps, f.fileExtension, FT_FILEFORMAT);
    ps := ps + StringFilter(f.fileExtension, FT_FILEFORMAT);
    result := AddStringFilter(result, ps, f.codec, FT_MEDIA_CODEC);
    ps := ps + StringFilter(f.codec, FT_MEDIA_CODEC);
    result := AddNumberFilter(result, ps, f.mediaLength, FT_MEDIA_LENGTH, GREATER_EQUAL);
    ps := ps + NumberFilter(f.mediaLength, FT_MEDIA_LENGTH, GREATER_EQUAL);
    result := AddNumberFilter(result, ps, f.mediaBitrate, FT_MEDIA_BITRATE, GREATER_EQUAL);
    ps := ps + NumberFilter(f.mediaBitrate, FT_MEDIA_BITRATE, GREATER_EQUAL);
    assert ps == ps0 + FileConjuncts(f);
  }

  method AddFilters(f: Filters) returns (result: seq<Entry>)
    ensures result == AndTokens(Conjuncts(f))
  {
    if f.fileType == "Folder" {
      result := AddFolderFilter();
    } else {
      var typeName := if f.fileType == "Arc" || f.fileType == "Iso" then "Pro" else f.fileType;
      result := AddStringFilter([], [], typeName, FT_FILETYPE);
      assert [] + TypeFilter(f.fileType) == TypeFilter(f.fileType);
      if f.fileType != "EmuleCollection" {
        result := AddFileFilters(f, result, TypeFilter(f.fileType));
      } else {
        assert TypeFilter(f.fileType) + [] == TypeFilter(f.fileType);
      }
    }
  }

  method ByteLength(s: string) returns (n: nat)
    ensures n == Utf8Length(s)
  {
    n := 0;
    var i := |s|;
    while 0 < i
      invariant 0 <= i <= |s| && n == Utf8Length(s[i..])
    {
      i := i - 1;
      var c := s[i] as int;
      assert s[i..][1..] == s[i + 1..];
      n := n + if c < 0x80 then 1 else if c < 0x800 then 2 else if c < 0x1_0000 then 3 else 4;
    }
  }

  method CheckLengths(f: Filters, value: string) returns (error: Option<BuildError>)
    ensures error == if Checked(f, value) then None else Some(Refusal(f, value))
  {
    var length := ByteLength(f.fileType);
    if length > MAX_ELEMENT { return Some(FileTypeTooLong); }
    length := ByteLength(f.fileExtension);
    if length > MAX_ELEMENT { return Some(ExtensionTooLong); }
    length := ByteLength(f.codec);
    if length > MAX_ELEMENT { return Some(CodecTooLong); }
    length := ByteLength(value);
    if length > MAX_QUERY { return Some(RequestTooLong); }
    if length == 0 {
      NonemptyHasBytes(value);
      return Some(RequestEmpty);
    }
    error := None;
  }

  method EndWord(result: seq<Entry>, item: string) returns (r: Built)
    ensures var flushed := FlushItem(Lex(result, item, false));
            r == if flushed.LexFailed? then Failed(flushed.error) else Entries(flushed.lex.result)
  {
    var oper := true;
    var extended: seq<Entry>;
    if item == "AND" {
      extended := AddOperand(result, OperatorEntry(AND));
    } else if item == "OR" {
      extended := AddOperand(result, OperatorEntry(OR));
    } else if item == "NOT" {
      extended := AddOperand(result, OperatorEntry(NOT));
    } else {
      extended := AddOperand(result, StringEntry(item, []));
      oper := false;
    }
    if oper {
      if |extended| == 1 {
        return Failed(OperatorFirst);
      }
      if extended[|extended| - 2].OperatorEntry? {
        return Failed(TwoOperators);
      }
    }
    r := Entries(extended);
  }

  /** The source's loop over the characters; it computes Build. */
  method BuildEntries(f: Filters, value: string) returns (built: Built)
    ensures built == Build(f, value)
  {
    hide AndTokens, Conjuncts, FlushItem, Appended;
    var error := CheckLengths(f, value);
    if error.Some? {
      return Failed(error.value);
    }
    var result := AddFilters(f);
    var verbatim := false;
    var item := "";
    ghost var all := LexAll(value, Lex(result, item, verbatim));
    var i := 0;
    assert value[i..] == value;
    while i < |value|
      invariant 0 <= i <= |value|
      invariant LexAll(value[i..], Lex(result, item, verbatim)) == all
    {
      var c := value[i];
      assert value[i..][0] == c && value[i..][1..] == value[i + 1..];
      ghost var st := Lex(result, item, verbatim);
      if c == ' ' || c == '(' || c == ')' {
        if verbatim {
          item := item + [c];
        } else if |item| != 0 {
          var ended := EndWord(result, item);
          if ended.Failed? {
            FlushFails(st, value[i..]);
            return ended;
          }
          FlushEmptiesItem(st);
          result := ended.entries;
          item := "";
        }
        assert LexSeparator(st, c) == Lexing(Lex(result, item, verbatim));
        if c == '(' {
          result := AddOperand(result, OpenParen);
        }
        if c == ')' {
          result := AddOperand(result, CloseParen);
        }
      } else if c == '"' {
        verbatim := !verbatim;
      } else {
        item := item + [c];
      }
      assert LexChar(st, c) == Lexing(Lex(result, item, verbatim));
      i := i + 1;
    }
    assert value[i..] == "";
    if verbatim {
      return Failed(UnclosedQuote);
    }
    if |item| != 0 {
      if item == "AND" || item == "OR" || item == "NOT" {
        return Failed(OperatorLast);
      }
      result := AddOperand(result, StringEntry(item, []));
    }
    return Entries(result);
  }

  lemma FlushFails(st: Lex, s: string)
    requires s != "" && Separator(s[0]) && !st.verbatim && st.item != "" && FlushItem(st).LexFailed?
    ensures LexAll(s, st) == FlushItem(st)
  {
  }

  lemma FlushEmptiesItem(st: Lex)
    requires !st.verbatim && FlushItem(st).Lexing?
    ensures FlushItem(st).lex == Lex(FlushItem(st).lex.result, "", false)
  {
  }
}

/** Writing a query down, and reading it back. */
module SearchText {
  import opened Bytes
  import opened SearchPack
  import opened SearchBuild

  // ----- one way to write a query

  /** Between two operands: an operator with spaces around it, or only spaces for AND. */
  datatype Gap = Written(op: Operator, before: nat, after: nat) | Implied(spaces: nat)

  datatype QueryText = OneText(first: PrimaryText) | MoreText(first: PrimaryText, gap: Gap, rest: QueryText)

  /** A word as typed, with quotes wherever the user likes, or parens with spaces inside. */
  datatype PrimaryText = WordText(shown: string) | GroupText(before: nat, query: QueryText, after: nat)

  function Spaces(n: nat): (s: string)
    ensures |s| == n
  {
    if n == 0 then "" else " " + Spaces(n - 1)
  }

  function NameOf(op: Operator): (s: string)
    ensures OperatorOf(s) == Some(op)
  {
    match op
    case AND => "AND"
    case OR => "OR"
    case NOT => "NOT"
  }

  function ShowGap(gap: Gap): string {
    match gap
    case Written(op, before, after) => Spaces(before) + NameOf(op) + Spaces(after)
    case Implied(spaces) => Spaces(spaces)
  }

  function Show(t: QueryText): string {
    match t
    case OneText(p) => ShowPrimary(p)
    case MoreText(p, gap, rest) => ShowPrimary(p) + (ShowGap(gap) + Show(rest))
  }

  function ShowPrimary(p: PrimaryText): string {
    match p
    case WordText(shown) => shown
    case GroupText(before, q, after) => "(" + (Spaces(before) + (Show(q) + (Spaces(after) + ")")))
  }

  function Strip(shown: string): string {
    if shown == "" then ""
    else if shown[0] == '"' then Strip(shown[1..])
    else [shown[0]] + Strip(shown[1..])
  }

  /** Quotes are closed, spaces are inside quotes, and there are no parens. */
  predicate Quoted(shown: string, verbatim: bool) {
    if shown == "" then !verbatim
    else if shown[0] == '"' then Quoted(shown[1..], !verbatim)
    else shown[0] != '(' && shown[0] != ')' && (shown[0] == ' ' ==> verbatim) && Quoted(shown[1..], verbatim)
  }

  predicate IsWord(item: string) {
    item != "" && OperatorOf(item).None?
  }

  /** Neighbours that are not parens are kept apart by a space. */
  predicate Apart(p: PrimaryText, gap: Gap, next: PrimaryText) {
    match gap
    case Written(_, before, after) => (0 < before || p.GroupText?) && (0 < after || next.GroupText?)
    case Implied(spaces) => 0 < spaces || p.GroupText? || next.GroupText?
  }

  predicate LegalText(t: QueryText) {
    LegalPrimaryText(t.first) && (t.MoreText? ==> Apart(t.first, t.gap, t.rest.first) && LegalText(t.rest))
  }

  predicate LegalPrimaryText(p: PrimaryText) {
    match p
    case WordText(shown) => Quoted(shown, false) && IsWord(Strip(shown))
    case GroupText(_, q, _) => LegalText(q)
  }

  /** The query meant. */
  function QueryOf(t: QueryText): Query {
    match t
    case OneText(p) => One(PrimaryOf(p))
    case MoreText(p, gap, rest) => More(PrimaryOf(p), OpOf(gap), QueryOf(rest))
  }

  function PrimaryOf(p: PrimaryText): Primary {
    match p
    case WordText(shown) => Value(StringEntry(Strip(shown), []))
    case GroupText(_, q, _) => Group(QueryOf(q))
  }

  function OpOf(gap: Gap): Operator {
    if gap.Written? then gap.op else AND
  }

  lemma {:induction false} QueryIsLegal(t: QueryText)
    ensures Legal(QueryOf(t))
    decreases t, 1
  {
    PrimaryIsLegal(t.first);
    if t.MoreText? {
      QueryIsLegal(t.rest);
    }
  }

  lemma {:induction false} PrimaryIsLegal(p: PrimaryText)
    ensures LegalPrimary(PrimaryOf(p))
    decreases p, 0
  {
    if p.GroupText? {
      QueryIsLegal(p.query);
    }
  }

  // ----- what can be typed

  /** Words without a quote or a paren, and no operator's name among them. */
  predicate Typable(tree: Tree) {
    match tree
    case Leaf(e) => e.StringEntry? && e.tag == [] && IsWord(e.value) && Plain(e.value)
    case Node(_, l, r) => Typable(l) && Typable(r)
  }

  predicate Plain(item: string) {
    forall c :: c in item ==> c != '"' && c != '(' && c != ')'
  }

  const QUOTE: string := ['"']

  /** Every word in quotes, every left operand in parens. */
  function TextFor(tree: Tree): QueryText
    requires Typable(tree)
  {
    match tree
    case Leaf(e) => OneText(WordText(QUOTE + (e.value + QUOTE)))
    case Node(op, l, r) => MoreText(GroupText(0, TextFor(l), 0), Written(op, 0, 1), TextFor(r))
  }

  lemma {:induction false} QuotedPlain(item: string)
    requires Plain(item)
    ensures Quoted(item + QUOTE, true) && Strip(item + QUOTE) == item
  {
    var shown := item + QUOTE;
    if item == "" {
      assert shown == QUOTE && QUOTE[1..] == "";
    } else {
      assert item[0] in item && forall c :: c in item[1..] ==> c in item;
      QuotedPlain(item[1..]);
      assert shown[0] == item[0] && shown[1..] == item[1..] + QUOTE;
      assert item == [item[0]] + item[1..];
    }
  }

  lemma {:induction false} TextForTree(tree: Tree)
    requires Typable(tree)
    ensures LegalText(TextFor(tree)) && TreeOf(QueryOf(TextFor(tree))) == tree
  {
    match tree
    case Leaf(e) =>
      QuotedPlain(e.value);
      assert (QUOTE + (e.value + QUOTE))[1..] == e.value + QUOTE;
    case Node(op, l, r) =>
      TextForTree(l);
      TextForTree(r);
  }

  lemma {:induction false} StripIsPlain(shown: string, verbatim: bool)
    requires Quoted(shown, verbatim)
    ensures Plain(Strip(shown))
  {
    if shown != "" {
      StripIsPlain(shown[1..], if shown[0] == '"' then !verbatim else verbatim);
    }
  }

  lemma {:induction false} TextIsTypable(t: QueryText)
    requires LegalText(t)
    ensures Typable(TreeOf(QueryOf(t)))
    decreases t, 1
  {
    PrimaryIsTypable(t.first);
    if t.MoreText? {
      TextIsTypable(t.rest);
    }
  }

  lemma {:induction false} PrimaryIsTypable(p: PrimaryText)
    requires LegalPrimaryText(p)
    ensures Typable(TreeOfPrimary(PrimaryOf(p)))
    decreases p, 0
  {
    match p
    case WordText(shown) =>
      StripIsPlain(shown, false);
    case GroupText(_, q, _) =>
      TextIsTypable(q);
  }

  /** An expression can be typed exactly when its words have no quotes, no parens and no operator's name. */
  lemma TypableIff(tree: Tree)
    ensures (exists t :: LegalText(t) && TreeOf(QueryOf(t)) == tree) <==> Typable(tree)
  {
    if t :| LegalText(t) && TreeOf(QueryOf(t)) == tree {
      TextIsTypable(t);
    }
    if Typable(tree) {
      TextForTree(tree);
    }
  }

  // ----- the reader

  lemma {:induction false} LexAppend(a: string, b: string, st: Lex)
    ensures LexAll(a + b, st) == AndThen(LexAll(a, st), b)
    decreases |a|
  {
    hide LexChar;
    if a == "" {
      assert a + b == b;
    } else {
      assert (a + b)[0] == a[0] && (a + b)[1..] == a[1..] + b;
      var lexed := LexChar(st, a[0]);
      if lexed.Lexing? {
        LexAppend(a[1..], b, lexed.lex);
      }
    }
  }

  /** A state between words, or at the end of one. */
  predicate Waiting(st: Lex) {
    !st.verbatim && (st.item == "" || IsWord(st.item))
  }

  /** The entries once the word being read is ended. */
  function Settled(st: Lex): seq<Entry> {
    if st.item == "" then st.result else Appended(st.result, StringEntry(st.item, []))
  }

  function Flushed(st: Lex): Lex {
    Lex(Settled(st), "", false)
  }

  predicate StartsApart(s: string) {
    s != "" && Separator(s[0])
  }

  /** A separator ends the word. */
  lemma LexFlushed(s: string, st: Lex)
    requires Waiting(st) && (st.item == "" || StartsApart(s))
    ensures LexAll(s, st) == LexAll(s, Flushed(st))
  {
    hide Appended, OperatorOf;
    if st.item != "" {
      assert LexChar(st, s[0]) == LexChar(Flushed(st), s[0]);
    }
  }

  lemma {:induction false} LexSpaces(n: nat, result: seq<Entry>)
    ensures LexAll(Spaces(n), Lex(result, "", false)) == Lexing(Lex(result, "", false))
  {
    if n != 0 {
      assert Spaces(n)[1..] == Spaces(n - 1);
      LexSpaces(n - 1, result);
    }
  }

  lemma {:induction false} LexWord(shown: string, st: Lex)
    requires Quoted(shown, st.verbatim)
    ensures LexAll(shown, st) == Lexing(Lex(st.result, st.item + Strip(shown), false))
    decreases |shown|
  {
    hide FlushItem;
    if shown == "" {
      assert st.item + "" == st.item;
    } else {
      var next := LexChar(st, shown[0]).lex;
      assert LexChar(st, shown[0]).Lexing?;
      LexWord(shown[1..], next);
      assert st.item + Strip(shown) == next.item + Strip(shown[1..]);
    }
  }

  lemma LexOpen(s: string, result: seq<Entry>)
    ensures LexAll("(" + s, Lex(result, "", false)) == LexAll(s, Lex(Appended(result, OpenParen), "", false))
  {
    assert ("(" + s)[1..] == s;
  }

  lemma LexClose(result: seq<Entry>)
    ensures LexAll(")", Lex(result, "", false)) == Lexing(Lex(Appended(result, CloseParen), "", false))
  {
    assert ")"[1..] == "";
  }

  lemma LexSpacesThen(n: nat, s: string, result: seq<Entry>)
    ensures LexAll(Spaces(n) + s, Lex(result, "", false)) == LexAll(s, Lex(result, "", false))
  {
    LexSpaces(n, result);
    LexAppend(Spaces(n), s, Lex(result, "", false));
  }

  /** An operator's name and what comes after it. */
  lemma LexOperator(op: Operator, s: string, result: seq<Entry>)
    requires StartsApart(s) && result != [] && !Top(result).OperatorEntry?
    ensures LexAll(NameOf(op) + s, Lex(result, "", false)) == LexAll(s, Lex(result + [OperatorEntry(op)], "", false))
  {
    var name := NameOf(op);
    var st := Lex(result, "", false);
    LexAppend(name, s, st);
    LexName(op, st);
    var named := Lex(result, name, false);
    assert FlushItem(named) == Lexing(Lex(result + [OperatorEntry(op)], "", false)) by {
      assert Appended(result, OperatorEntry(op)) == result + [OperatorEntry(op)];
    }
    hide FlushItem, Appended;
    assert LexChar(named, s[0]) == LexChar(Lex(result + [OperatorEntry(op)], "", false), s[0]);
  }

  lemma LexName(op: Operator, st: Lex)
    requires st.item == "" && !st.verbatim
    ensures LexAll(NameOf(op), st) == Lexing(st.(item := NameOf(op)))
  {
    hide FlushItem;
    var name := NameOf(op);
    QuotedName(op);
    LexWord(name, st);
    assert "" + Strip(name) == name;
  }

  lemma QuotedName(op: Operator)
    ensures Quoted(NameOf(op), false) && Strip(NameOf(op)) == NameOf(op)
  {
    var n := NameOf(op);
    assert Quoted("", false) && Strip("") == "";
    var t1 := n[1..];
    var t2 := t1[1..];
    if op.OR? {
      assert t2 == "";
      assert Quoted(t1, false) && Strip(t1) == t1;
    } else {
      assert t2[1..] == "";
      assert Quoted(t2, false) && Strip(t2) == t2;
      assert Quoted(t1, false) && Strip(t1) == t1;
    }
  }

  // ----- queries

  lemma ShowStarts(t: QueryText)
    requires LegalText(t) && t.first.GroupText?
    ensures StartsApart(Show(t))
  {
    assert ShowPrimary(t.first)[0] == '(';
  }

  lemma SpacesStart(n: nat, s: string)
    requires 0 < n || StartsApart(s)
    ensures StartsApart(Spaces(n) + s)
  {
  }

  lemma WrittenStarts(op: Operator, before: nat, after: nat, s: string)
    requires 0 < before
    ensures StartsApart(ShowGap(Written(op, before, after)) + s)
  {
    hide NameOf, StartsApart, Spaces;
    var tail := NameOf(op) + Spaces(after) + s;
    assert ShowGap(Written(op, before, after)) + s == Spaces(before) + tail;
    SpacesStart(before, tail);
  }

  lemma GapStarts(p: PrimaryText, gap: Gap, rest: QueryText)
    requires LegalText(rest) && Apart(p, gap, rest.first)
    ensures p.GroupText? || StartsApart(ShowGap(gap) + Show(rest))
    ensures gap.Written? ==> StartsApart(Spaces(gap.after) + Show(rest))
  {
    hide Show, StartsApart, Spaces;
    if rest.first.GroupText? {
      ShowStarts(rest);
    }
    hide LegalText;
    match gap
    case Written(op, before, after) =>
      SpacesStart(after, Show(rest));
      if p.WordText? {
        WrittenStarts(op, before, after, Show(rest));
      }
    case Implied(spaces) =>
      if p.WordText? {
        SpacesStart(spaces, Show(rest));
      }
  }

  function WrittenOp(gap: Gap): seq<Entry> {
    if gap.Written? then [OperatorEntry(gap.op)] else []
  }

  lemma LexGap(gap: Gap, s: string, result: seq<Entry>)
    requires result != [] && EndsOperand(Top(result))
    requires gap.Written? ==> StartsApart(Spaces(gap.after) + s)
    ensures LexAll(ShowGap(gap) + s, Lex(result, "", false)) == LexAll(s, Lex(result + WrittenOp(gap), "", false))
  {
    match gap
    case Written(op, before, after) =>
      var tail := Spaces(after) + s;
      assert ShowGap(gap) + s == Spaces(before) + (NameOf(op) + tail);
      LexSpacesThen(before, NameOf(op) + tail, result);
      LexOperator(op, tail, result);
      LexSpacesThen(after, s, result + [OperatorEntry(op)]);
    case Implied(spaces) =>
      LexSpacesThen(spaces, s, result);
      assert result + [] == result;
  }

  lemma GlueAfterGap(gap: Gap, result: seq<Entry>)
    requires result != [] && EndsOperand(Top(result))
    ensures result + WrittenOp(gap) + Glue(result + WrittenOp(gap)) == result + [OperatorEntry(OpOf(gap))]
  {
  }

  /** Reading the text of a query appends its entries, with AND before them where they follow an operand. */
  lemma {:induction false} LexQuery(t: QueryText, result: seq<Entry>) returns (st: Lex)
    requires LegalText(t)
    ensures LexAll(Show(t), Lex(result, "", false)) == Lexing(st) && Waiting(st)
    ensures Settled(st) == result + Glue(result) + Tokens(QueryOf(t))
    decreases t, 1
  {
    hide LexAll, Settled, Glue, Waiting, EndsOperand, ShowPrimary, ShowGap, LegalPrimaryText, Apart;
    st := LexPrimary(t.first, result);
    if t.MoreText? {
      var p, gap, rest := t.first, t.gap, t.rest;
      var tail := ShowGap(gap) + Show(rest);
      LexAppend(ShowPrimary(p), tail, Lex(result, "", false));
      GapStarts(p, gap, rest);
      LexFlushed(tail, st);
      var settled := Settled(st);
      PrimaryIsLegal(p);
      PrimaryTokensEnd(PrimaryOf(p));
      assert Top(settled) == Top(TokensOf(PrimaryOf(p)));
      LexGap(gap, Show(rest), settled);
      GlueAfterGap(gap, settled);
      st := LexQuery(rest, settled + WrittenOp(gap));
    }
  }

  lemma {:induction false} LexPrimary(p: PrimaryText, result: seq<Entry>) returns (st: Lex)
    requires LegalPrimaryText(p)
    ensures LexAll(ShowPrimary(p), Lex(result, "", false)) == Lexing(st) && Waiting(st)
    ensures Settled(st) == result + Glue(result) + TokensOf(PrimaryOf(p))
    ensures p.GroupText? ==> st.item == ""
    decreases p, 0
  {
    match p
    case WordText(shown) =>
      LexWord(shown, Lex(result, "", false));
      assert "" + Strip(shown) == Strip(shown);
      st := Lex(result, Strip(shown), false);
    case GroupText(before, q, after) =>
      hide LexAll, Tokens;
      st := LexGroup(before, q, after, result);
  }

  lemma {:induction false} LexGroup(before: nat, q: QueryText, after: nat, result: seq<Entry>) returns (st: Lex)
    requires LegalText(q)
    ensures LexAll("(" + (Spaces(before) + (Show(q) + (Spaces(after) + ")"))), Lex(result, "", false)) == Lexing(st)
    ensures Waiting(st) && st.item == ""
    ensures Settled(st) == result + Glue(result) + ([OpenParen] + Tokens(QueryOf(q)) + [CloseParen])
    decreases q, 2
  {
    hide LexAll, Waiting, StartsApart, LegalText, Show, Settled, Appended, Glue, Tokens, Spaces;
    var close := Spaces(after) + ")";
    var within := Appended(result, OpenParen);
    LexOpen(Spaces(before) + (Show(q) + close), result);
    LexSpacesThen(before, Show(q) + close, within);
    var inner := LexQuery(q, within);
    LexAppend(Show(q), close, Lex(within, "", false));
    CloseStarts(after);
    LexFlushed(close, inner);
    var settled := Settled(inner);
    LexSpacesThen(after, ")", settled);
    LexClose(settled);
    GroupSettles(result, q);
    assert settled == within + Tokens(QueryOf(q)) by {
      assert within + [] == within;
    }
    st := Lex(Appended(settled, CloseParen), "", false);
    WaitingBetween(st.result);
  }

  lemma WaitingBetween(result: seq<Entry>)
    ensures Waiting(Lex(result, "", false)) && Settled(Lex(result, "", false)) == result
  {
  }

  lemma CloseStarts(after: nat)
    ensures StartsApart(Spaces(after) + ")")
  {
    SpacesStart(after, ")");
  }

  lemma GroupSettles(result: seq<Entry>, q: QueryText)
    ensures Glue(Appended(result, OpenParen)) == []
    ensures Appended(Appended(result, OpenParen) + Tokens(QueryOf(q)), CloseParen)
            == result + Glue(result) + ([OpenParen] + Tokens(QueryOf(q)) + [CloseParen])
  {
  }

  // ----- the whole request

  /** What the user types: the query with spaces around it. */
  function Typed(before: nat, t: QueryText, after: nat): string {
    Spaces(before) + (Show(t) + Spaces(after))
  }

  lemma LexTyped(before: nat, t: QueryText, after: nat, result: seq<Entry>)
    requires LegalText(t)
    ensures LexEnd(LexAll(Typed(before, t, after), Lex(result, "", false)))
            == Entries(result + Glue(result) + Tokens(QueryOf(t)))
  {
    LexSpacesThen(before, Show(t) + Spaces(after), result);
    var st := LexQuery(t, result);
    LexAppend(Show(t), Spaces(after), Lex(result, "", false));
    if after == 0 {
      assert LexAll("", st) == Lexing(st);
    } else {
      LexFlushed(Spaces(after), st);
      LexSpaces(after, Settled(st));
    }
  }

  /** All conditions and the whole query. */
  function Joined(ps: seq<Primary>, q: Query): Query {
    if ps == [] then q else More(ps[0], AND, Joined(ps[1..], q))
  }

  function Conjunction(ps: seq<Primary>, t: Tree): Tree {
    if ps == [] then t else Node(AND, TreeOfPrimary(ps[0]), Conjunction(ps[1..], t))
  }

  lemma {:induction false} JoinedTree(ps: seq<Primary>, q: Query)
    ensures TreeOf(Joined(ps, q)) == Conjunction(ps, TreeOf(q))
  {
    if ps != [] {
      JoinedTree(ps[1..], q);
    }
  }

  lemma {:induction false} JoinedLegal(ps: seq<Primary>, q: Query)
    requires Legal(q) && forall p :: p in ps ==> LegalPrimary(p)
    ensures Legal(Joined(ps, q))
  {
    if ps != [] {
      JoinedLegal(ps[1..], q);
    }
  }

  lemma {:induction false} JoinedPush(ps: seq<Primary>, p: Primary, q: Query)
    ensures Joined(ps + [p], q) == Joined(ps, More(p, AND, q))
  {
    if ps == [] {
      assert ([] + [p])[1..] == [];
    } else {
      assert (ps + [p])[1..] == ps[1..] + [p];
      JoinedPush(ps[1..], p, q);
    }
  }

  lemma {:induction false} JoinedTokens(ps: seq<Primary>, q: Query)
    requires forall p :: p in ps ==> LegalPrimary(p)
    ensures AndTokens(ps) + Glue(AndTokens(ps)) + Tokens(q) == Tokens(Joined(ps, q))
    decreases |ps|
  {
    if ps != [] {
      var front, p := ps[..|ps| - 1], ps[|ps| - 1];
      assert ps == front + [p];
      AndTokensEnd(ps);
      if front == [] {
        assert ps == [p] && ps[1..] == [];
      } else {
        AndTokensEnd(front);
        JoinedTokens(front, More(p, AND, q));
        JoinedPush(front, p, q);
      }
    }
  }

  lemma ConjunctsLegal(f: Filters)
    ensures forall p :: p in Conjuncts(f) ==> LegalPrimary(p)
  {
    var links := FOLDER_FILTER.query.rest;
    assert LegalPrimary(links.first) && Legal(links);
    assert LegalPrimary(FOLDER_FILTER.query.first) && Legal(FOLDER_FILTER.query);
    assert LegalPrimary(FOLDER_FILTER);
  }

  /** Printer and reader agree: however a query is typed, the entries are the
      filters' conditions and the query, and packing them gives the prefix form of
      the conjunction of all conditions with the whole query. */
  lemma TypedQueryCompiles(f: Filters, before: nat, t: QueryText, after: nat)
    requires LegalText(t) && Checked(f, Typed(before, t, after))
    ensures var built := Build(f, Typed(before, t, after));
            && built.Entries?
            && Pack(built.entries) == Request(Prefix(Conjunction(Conjuncts(f), TreeOf(QueryOf(t)))))
  {
    var ps, q := Conjuncts(f), QueryOf(t);
    LexTyped(before, t, after, AndTokens(ps));
    ConjunctsLegal(f);
    QueryIsLegal(t);
    JoinedTokens(ps, q);
    JoinedLegal(ps, q);
    JoinedTree(ps, q);
    PackCompiles(Joined(ps, q));
  }

  // ----- all inputs

  /** No two operators and no two operands in a row, and no operator first. */
  predicate Separated(es: seq<Entry>) {
    && (es != [] ==> !es[0].OperatorEntry?)
    && (forall i :: 0 <= i < |es| - 1 ==> !(es[i].OperatorEntry? && es[i + 1].OperatorEntry?))
    && (forall i :: 0 <= i < |es| - 1 ==> !(EndsOperand(es[i]) && StartsOperand(es[i + 1])))
  }

  lemma AppendedSeparated(es: seq<Entry>, e: Entry)
    requires Separated(es) && (e.OperatorEntry? ==> es != [] && !Top(es).OperatorEntry?)
    ensures Separated(Appended(es, e))
  {
  }

  lemma CharSeparated(st: Lex, c: char)
    requires Separated(st.result) && LexChar(st, c).Lexing?
    ensures Separated(LexChar(st, c).lex.result)
  {
    hide Separated, Appended;
    if Separator(c) {
      var flushed := LexSeparator(st, c);
      if !st.verbatim && st.item != "" {
        var op := OperatorOf(st.item);
        AppendedSeparated(st.result, if op.None? then StringEntry(st.item, []) else OperatorEntry(op.value));
      }
      AppendedSeparated(flushed.lex.result, OpenParen);
      AppendedSeparated(flushed.lex.result, CloseParen);
    }
  }

  lemma {:induction false} AllSeparated(value: string, st: Lex)
    requires Separated(st.result) && LexAll(value, st).Lexing?
    ensures Separated(LexAll(value, st).lex.result)
    decreases |value|
  {
    hide Separated, LexChar;
    if value != "" {
      CharSeparated(st, value[0]);
      AllSeparated(value[1..], LexChar(st, value[0]).lex);
    }
  }

  lemma {:induction false} TokensSeparated(q: Query)
    requires Legal(q)
    ensures Separated(Tokens(q))
    decreases q, 1
  {
    PrimarySeparated(q.first);
    if q.More? {
      TokensSeparated(q.rest);
      PrimaryTokensEnd(q.first);
      TokensEnd(q.rest);
    }
  }

  lemma {:induction false} PrimarySeparated(p: Primary)
    requires LegalPrimary(p)
    ensures Separated(TokensOf(p))
    decreases p, 0
  {
    if p.Group? {
      TokensSeparated(p.query);
      TokensEnd(p.query);
    }
  }

  lemma {:induction false} AndTokensSeparated(ps: seq<Primary>)
    requires forall p :: p in ps ==> LegalPrimary(p)
    ensures Separated(AndTokens(ps))
  {
    if ps != [] {
      var p := ps[|ps| - 1];
      PrimarySeparated(p);
      PrimaryTokensEnd(p);
      if |ps| > 1 {
        AndTokensSeparated(ps[..|ps| - 1]);
        AndTokensEnd(ps[..|ps| - 1]);
      }
    }
  }

  /** Whatever is typed, accepted entries have an operator between any two operands and never two. */
  lemma BuiltIsSeparated(f: Filters, value: string)
    requires Build(f, value).Entries?
    ensures Separated(Build(f, value).entries)
  {
    hide Separated, AndTokens, Appended, Conjuncts, LexAll, LegalPrimary, Utf8Length, FOLDER_FILTER;
    ConjunctsLegal(f);
    AndTokensSeparated(Conjuncts(f));
    var st := Lex(AndTokens(Conjuncts(f)), "", false);
    AllSeparated(value, st);
    var last := LexAll(value, st).lex;
    AppendedSeparated(last.result, StringEntry(last.item, []));
  }

  lemma LexTypedSpaced(before: nat, t: QueryText, after: nat, result: seq<Entry>)
    requires LegalText(t) && 0 < after
    ensures LexAll(Typed(before, t, after), Lex(result, "", false))
            == Lexing(Lex(result + Glue(result) + Tokens(QueryOf(t)), "", false))
  {
    hide Tokens, Glue;
    LexSpacesThen(before, Show(t) + Spaces(after), result);
    var st := LexQuery(t, result);
    LexAppend(Show(t), Spaces(after), Lex(result, "", false));
    LexFlushed(Spaces(after), st);
    LexSpaces(after, Settled(st));
  }

  /** An operator behind a query is refused exactly when no space follows it. */
  lemma OperatorAfterQuery(f: Filters, before: nat, t: QueryText, between: nat, op: Operator, after: nat)
    requires LegalText(t) && 0 < between && Checked(f, Typed(before, t, between) + (NameOf(op) + Spaces(after)))
    ensures Build(f, Typed(before, t, between) + (NameOf(op) + Spaces(after)))
            == if after == 0 then Failed(OperatorLast)
               else Entries(Tokens(Joined(Conjuncts(f), QueryOf(t))) + [OperatorEntry(op)])
  {
    hide Conjuncts, AndTokens, Glue, LexAll, Utf8Length, Spaces, Typed, LegalText, QueryOf, Joined, Tokens, Legal;
    var ps, q, end := Conjuncts(f), QueryOf(t), NameOf(op) + Spaces(after);
    var start := AndTokens(ps);
    var result := Tokens(Joined(ps, q));
    LexAppend(Typed(before, t, between), end, Lex(start, "", false));
    LexTypedSpaced(before, t, between, start);
    ConjunctsLegal(f);
    QueryIsLegal(t);
    JoinedTokens(ps, q);
    if after == 0 {
      assert end == NameOf(op);
      LexName(op, Lex(result, "", false));
    } else {
      JoinedLegal(ps, q);
      TokensEnd(Joined(ps, q));
      SpacesStart(after, "");
      assert Spaces(after) + "" == Spaces(after);
      LexOperator(op, Spaces(after), result);
      LexSpaces(after, result + [OperatorEntry(op)]);
    }
  }
}
