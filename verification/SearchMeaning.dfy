/** What a search request asks for: which files of a server it admits
    (proto/search.go, BuildEntries and PackRequest). */
module SearchMeaning {
  import opened SearchPack
  import opened SearchBuild
  import opened SearchText

  /** A file as a server lists it; words are those that find it. */
  datatype File = File(words: set<string>, size: nat, sources: nat, completeSources: nat, fileType: string,
                       extension: string, codec: string, mediaLength: nat, mediaBitrate: nat)

  /** The tag ids of numbers in a search request. */
  function NumberOf(file: File, id: bv8): nat {
    if id == 0x02 then file.size
    else if id == 0x15 then file.sources
    else if id == 0x30 then file.completeSources
    else if id == 0xD3 then file.mediaLength
    else if id == 0xD4 then file.mediaBitrate
    else 0
  }

  /** The comparisons of the ed2k protocol. */
  predicate Compares(value: nat, operator: bv8, bound: nat) {
    if operator == 0 then value == bound
    else if operator == 1 then value > bound
    else if operator == 2 then value < bound
    else if operator == 3 then value >= bound
    else if operator == 4 then value <= bound
    else operator == 5 && value != bound
  }

  predicate Admits(e: Entry, file: File) {
    match e
    case StringEntry(value, tag) =>
      if tag == [] then value in file.words
      else if tag == [0x03] then file.fileType == value
      else if tag == [0x04] then file.extension == value
      else tag == [0xD5] && file.codec == value
    case NumericEntry(number, operator, id) => Compares(NumberOf(file, id), operator, number)
    case _ => false
  }

  predicate Holds(t: Tree, file: File) {
    match t
    case Leaf(e) => Admits(e, file)
    case Node(AND, l, r) => Holds(l, file) && Holds(r, file)
    case Node(OR, l, r) => Holds(l, file) || Holds(r, file)
    case Node(NOT, l, r) => Holds(l, file) && !Holds(r, file)
  }

  /** What the filters mean: a bound of zero and an empty text are no filter, archives and images are
      programs, a folder is a collection that is no link, and collections have no other filters. */
  predicate Passes(f: Filters, file: File) {
    if f.fileType == "Folder" then file.fileType == "EmuleCollection" && "ED2K:\\" !in file.words
    else
      && (f.fileType == ""
          || file.fileType == if f.fileType == "Arc" || f.fileType == "Iso" then "Pro" else f.fileType)
      && (f.fileType == "EmuleCollection" || PassesFile(f, file))
  }

  predicate PassesFile(f: Filters, file: File) {
    && (f.minSize == 0 || f.minSize < file.size)
    && (f.maxSize == 0 || file.size < f.maxSize)
    && (f.sourcesCount == 0 || f.sourcesCount < file.sources)
    && (f.completeSourcesCount == 0 || f.completeSourcesCount < file.completeSources)
    && (f.fileExtension == "" || file.extension == f.fileExtension)
    && (f.codec == "" || file.codec == f.codec)
    && (f.mediaLength == 0 || f.mediaLength <= file.mediaLength)
    && (f.mediaBitrate == 0 || f.mediaBitrate <= file.mediaBitrate)
  }

  predicate AllHold(ps: seq<Primary>, file: File) {
    forall p :: p in ps ==> Holds(TreeOfPrimary(p), file)
  }

  lemma AllHoldConcat(a: seq<Primary>, b: seq<Primary>, file: File)
    ensures AllHold(a + b, file) <==> AllHold(a, file) && AllHold(b, file)
  {
    hide Holds, TreeOfPrimary;
    forall p | p in a || p in b
      ensures p in a + b
    {
    }
  }

  lemma {:induction false} ConjunctionHolds(ps: seq<Primary>, t: Tree, file: File)
    ensures Holds(Conjunction(ps, t), file) <==> AllHold(ps, file) && Holds(t, file)
  {
    hide TreeOfPrimary;
    if ps != [] {
      ConjunctionHolds(ps[1..], t, file);
      AllHoldConcat([ps[0]], ps[1..], file);
      assert ps == [ps[0]] + ps[1..];
    }
  }

  lemma NumberHolds(value: nat, id: bv8, operator: bv8, file: File)
    ensures AllHold(NumberFilter(value, id, operator), file)
            <==> value == 0 || Compares(NumberOf(file, id), operator, value)
  {
    hide NumberOf, Compares;
    if value != 0 {
      assert Holds(TreeOfPrimary(Value(NumericEntry(value, operator, id))), file)
          <==> Compares(NumberOf(file, id), operator, value);
      assert NumberFilter(value, id, operator)[0] in NumberFilter(value, id, operator);
    }
  }

  lemma TextHolds(value: string, id: bv8, file: File)
    ensures AllHold(StringFilter(value, id), file) <==> value == "" || Admits(StringEntry(value, [id]), file)
  {
    hide Admits;
    if value != "" {
      assert Holds(TreeOfPrimary(Value(StringEntry(value, [id]))), file) <==> Admits(StringEntry(value, [id]), file);
      assert StringFilter(value, id)[0] in StringFilter(value, id);
    }
  }

  lemma FileConjunctsHold(f: Filters, file: File)
    ensures AllHold(FileConjuncts(f), file) <==> PassesFile(f, file)
  {
    hide AllHold, NumberFilter, StringFilter;
    var minSize, maxSize := NumberFilter(f.minSize, 0x02, 1), NumberFilter(f.maxSize, 0x02, 2);
    var sources, complete := NumberFilter(f.sourcesCount, 0x15, 1), NumberFilter(f.completeSourcesCount, 0x30, 1);
    var extension, codec := StringFilter(f.fileExtension, 0x04), StringFilter(f.codec, 0xD5);
    var length, bitrate := NumberFilter(f.mediaLength, 0xD3, 3), NumberFilter(f.mediaBitrate, 0xD4, 3);
    AllHoldConcat(minSize, maxSize, file);
    AllHoldConcat(minSize + maxSize, sources, file);
    AllHoldConcat(minSize + maxSize + sources, complete, file);
    AllHoldConcat(minSize + maxSize + sources + complete, extension, file);
    AllHoldConcat(minSize + maxSize + sources + complete + extension, codec, file);
    AllHoldConcat(minSize + maxSize + sources + complete + extension + codec, length, file);
    AllHoldConcat(minSize + maxSize + sources + complete + extension + codec + length, bitrate, file);
    NumberHolds(f.minSize, 0x02, 1, file);
    NumberHolds(f.maxSize, 0x02, 2, file);
    NumberHolds(f.sourcesCount, 0x15, 1, file);
    NumberHolds(f.completeSourcesCount, 0x30, 1, file);
    TextHolds(f.fileExtension, 0x04, file);
    TextHolds(f.codec, 0xD5, file);
    NumberHolds(f.mediaLength, 0xD3, 3, file);
    NumberHolds(f.mediaBitrate, 0xD4, 3, file);
  }

  lemma FolderHolds(file: File)
    ensures AllHold([FOLDER_FILTER], file) <==> file.fileType == "EmuleCollection" && "ED2K:\\" !in file.words
  {
    var collection, links := StringEntry("EmuleCollection", [FT_FILETYPE]), StringEntry("ED2K:\\", []);
    assert TreeOf(One(Value(links))) == TreeOfPrimary(Value(links)) == Leaf(links);
    assert TreeOf(More(Value(collection), NOT, One(Value(links)))) == Node(NOT, Leaf(collection), Leaf(links));
    assert TreeOfPrimary(FOLDER_FILTER) == Node(NOT, Leaf(collection), Leaf(links));
    assert Holds(Leaf(collection), file) <==> file.fileType == "EmuleCollection";
    assert Holds(Leaf(links), file) <==> "ED2K:\\" in file.words;
    assert AllHold([FOLDER_FILTER], file) <==> Holds(TreeOfPrimary(FOLDER_FILTER), file) by {
      assert [FOLDER_FILTER][0] == FOLDER_FILTER;
    }
  }

  /** The conditions that the filters add admit exactly the files that pass the filters. */
  lemma FiltersAdmit(f: Filters, file: File)
    ensures AllHold(Conjuncts(f), file) <==> Passes(f, file)
  {
    hide AllHold, FileConjuncts, StringFilter, PassesFile;
    if f.fileType == "Folder" {
      FolderHolds(file);
    } else {
      var fileType := if f.fileType == "Arc" || f.fileType == "Iso" then "Pro" else f.fileType;
      TextHolds(fileType, FT_FILETYPE, file);
      FileConjunctsHold(f, file);
      AllHoldConcat(TypeFilter(f.fileType), FileConjuncts(f), file);
      if f.fileType == "EmuleCollection" {
        assert TypeFilter(f.fileType) + [] == TypeFilter(f.fileType);
      }
    }
  }

  /** From the text to the server: what is sent for a query typed in any way reads as an expression
      that admits exactly the files which pass all filters and satisfy the whole query. */
  lemma TypedQueryMeans(f: Filters, before: nat, t: QueryText, after: nat, file: File)
    requires LegalText(t) && Checked(f, Typed(before, t, after))
    ensures var built := Build(f, Typed(before, t, after));
            && built.Entries? && Pack(built.entries).Request?
            && var read := ReadPrefix(Pack(built.entries).entries);
               && read.Parsed? && read.rest == []
               && (Holds(read.tree, file) <==> Passes(f, file) && Holds(TreeOf(QueryOf(t)), file))
  {
    hide Build, Pack, Typed, Passes, Holds, Conjuncts, Prefix, TreeOf, QueryOf, ReadPrefix, Conjunction, Checked,
         LegalText;
    TypedQueryCompiles(f, before, t, after);
    var tree := Conjunction(Conjuncts(f), TreeOf(QueryOf(t)));
    ConjunctsLegal(f);
    QueryIsLegal(t);
    JoinedLegal(Conjuncts(f), QueryOf(t));
    JoinedTree(Conjuncts(f), QueryOf(t));
    QueryTreeIsLegal(Joined(Conjuncts(f), QueryOf(t)));
    ReadBack(tree, []);
    assert Prefix(tree) + [] == Prefix(tree);
    ConjunctionHolds(Conjuncts(f), TreeOf(QueryOf(t)), file);
    FiltersAdmit(f, file);
  }
}
