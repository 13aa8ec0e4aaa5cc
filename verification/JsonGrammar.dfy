/** JSON texts as section 2 of RFC 8259 lays them out, and that the parser accepts exactly these. */
module JsonGrammar {
  import opened Common
  import opened JsonSpec
  import opened JsonRoundTrip
  import opened JsonNumbers
  import opened JsonStrings

  // ----- the grammar -----

  /** Space, tab, line feed and carriage return. */
  predicate IsBlank(w: Text) {
    forall i :: 0 <= i < |w| ==> w[i] as int == 0x20 || w[i] as int == 0x09 || w[i] as int == 0x0A || w[i] as int == 0x0D
  }

  /** A text by its parts; an empty list or object may hold blanks, and the others have them around their entries. */
  datatype Doc =
    | Null | False | True
    | Num(number: Number)
    | Str(units: seq<Unit>)
    | NoItems(blank: Text)
    | List(items: seq<Item>)
    | NoEntries(blank: Text)
    | Object(entries: seq<Entry>)

  datatype Item = Item(before: Text, value: Doc, after: Text)

  datatype Entry = Entry(before: Text, key: seq<Unit>, gap: Text, item: Item)

  predicate IsDoc(d: Doc)
    decreases d, 1
  {
    match d
    case Num(n) => IsAccepted(n)
    case Str(us) => AreUnits(us)
    case NoItems(w) => IsBlank(w)
    case NoEntries(w) => IsBlank(w)
    case List(items) => items != [] && forall i :: 0 <= i < |items| ==> IsItem(items[i])
    case Object(entries) => entries != [] && forall i :: 0 <= i < |entries| ==> IsEntry(entries[i])
    case _ => true
  }

  predicate IsItem(x: Item)
    decreases x, 0
  {
    IsBlank(x.before) && IsDoc(x.value) && IsBlank(x.after)
  }

  predicate IsEntry(x: Entry)
    decreases x, 0
  {
    IsBlank(x.before) && AreUnits(x.key) && IsBlank(x.gap) && IsItem(x.item)
  }

  function DocText(d: Doc): Text
    decreases d, 1
  {
    match d
    case Null => "null"
    case False => "false"
    case True => "true"
    case Num(n) => NumberText(n)
    case Str(us) => Quoted(us)
    case NoItems(w) => ['['] + (w + [']'])
    case NoEntries(w) => ['{'] + (w + ['}'])
    case List(items) => ['['] + ItemsText(items)
    case Object(entries) => ['{'] + EntriesText(entries)
  }

  function ItemText(x: Item): Text
    decreases x, 0
  {
    x.before + (DocText(x.value) + x.after)
  }

  /** With commas between them, and the bracket behind the last one. */
  function ItemsText(items: seq<Item>): Text
    decreases items, 0, 1
  {
    if items == [] then [] else ItemText(items[0]) + BehindItem(items)
  }

  function BehindItem(items: seq<Item>): Text
    requires items != []
    decreases items, 0, 0
  {
    if |items| == 1 then [']'] else [','] + ItemsText(items[1..])
  }

  function EntryText(x: Entry): Text
    decreases x, 0
  {
    x.before + (Quoted(x.key) + (x.gap + ([':'] + ItemText(x.item))))
  }

  function EntriesText(entries: seq<Entry>): Text
    decreases entries, 0, 1
  {
    if entries == [] then [] else EntryText(entries[0]) + BehindEntry(entries)
  }

  function BehindEntry(entries: seq<Entry>): Text
    requires entries != []
    decreases entries, 0, 0
  {
    if |entries| == 1 then ['}'] else [','] + EntriesText(entries[1..])
  }

  function Means(d: Doc): Json
    requires IsDoc(d)
    decreases d, 1
  {
    match d
    case Null => JNull
    case False => JFalse
    case True => JTrue
    case Num(n) => JNumber(NumberText(n))
    case Str(us) => JString(UnitsMean(us))
    case NoItems(_) => JList([])
    case NoEntries(_) => JObject([])
    case List(items) => JList(ItemsMean(items))
    case Object(entries) => JObject(EntriesMean(entries))
  }

  function ItemsMean(items: seq<Item>): seq<Json>
    requires forall i :: 0 <= i < |items| ==> IsItem(items[i])
    decreases items, 0
  {
    if items == [] then [] else assert IsItem(items[0]); [Means(items[0].value)] + ItemsMean(items[1..])
  }

  function EntriesMean(entries: seq<Entry>): seq<Member>
    requires forall i :: 0 <= i < |entries| ==> IsEntry(entries[i])
    decreases entries, 0
  {
    if entries == [] then []
    else
      assert IsEntry(entries[0]) && IsItem(entries[0].item);
      [Member(UnitsMean(entries[0].key), Means(entries[0].item.value))] + EntriesMean(entries[1..])
  }

  // ----- blanks -----

  lemma SpaceIs(c: Byte)
    ensures IsSpace(c) <==> IsBlank([c])
  {
    assert [c][0] == c;
  }

  /** The parser reads over blanks up to the first other character. */
  lemma {:induction false} BlanksSkipped(t: Text, pos: nat, w: Text)
    requires Terminated(t) && WordAt(t, pos, w) && IsBlank(w) && pos + |w| < |t| && !IsSpace(t[pos + |w|])
    ensures Skip(t, pos) == pos + |w|
    decreases |w|
  {
    if w != [] {
      WordHas(t, pos, w, 0);
      assert w == [w[0]] + w[1..];
      WordSplit(t, pos, [w[0]], w[1..]);
      BlanksSkipped(t, pos + 1, w[1..]);
    }
  }

  lemma {:induction false} SkippedIsBlank(t: Text, pos: nat)
    requires Terminated(t) && pos < |t|
    ensures IsBlank(t[pos..Skip(t, pos)])
    decreases |t| - pos
  {
    if IsSpace(t[pos]) {
      SkippedIsBlank(t, pos + 1);
      assert t[pos..Skip(t, pos)] == [t[pos]] + t[pos + 1..Skip(t, pos)];
    }
  }

  // ----- first characters -----

  predicate Starts(c: Byte) { c in "nft\"[{-0123456789" }

  lemma NumberStarts(n: Number)
    requires IsAccepted(n)
    ensures NumberText(n) != [] && NumberText(n)[0] in "-0123456789"
  {}

  lemma DocStarts(d: Doc)
    requires IsDoc(d)
    ensures DocText(d) != [] && Starts(DocText(d)[0])
    ensures d.Num? ==> DocText(d)[0] in "-0123456789"
  {
    if d.Num? { NumberStarts(d.number); }
  }

  lemma StartsNoBlank(c: Byte)
    requires Starts(c)
    ensures !IsSpace(c) && c != ']' && c != '}'
  {}

  lemma EndsNoNumber(c: Byte)
    requires IsSpace(c) || c in "],}" || c == '\0'
    ensures !IsNumeric(c)
  {}

  // ----- every text of the grammar is read -----

  /** What stands behind a document does not go on with it. */
  predicate Ends(t: Text, pos: nat, d: Doc) { pos < |t| && (d.Num? ==> !IsNumeric(t[pos])) }

  /** The parser decides by the first character. */
  lemma ByFirst(t: Text, pos: nat)
    requires Terminated(t) && pos < |t|
    ensures t[pos] == '"' ==> ParseValue(t, pos) == ParseString(t, pos)
    ensures t[pos] == 'n' ==> ParseValue(t, pos) == ParseWord(t, pos, ['n', 'u', 'l', 'l'], JNull)
    ensures t[pos] == 'f' ==> ParseValue(t, pos) == ParseWord(t, pos, ['f', 'a', 'l', 's', 'e'], JFalse)
    ensures t[pos] == 't' ==> ParseValue(t, pos) == ParseWord(t, pos, ['t', 'r', 'u', 'e'], JTrue)
    ensures t[pos] !in "\"nft[{" ==>
              ParseValue(t, pos) == match ScanNumber(t, pos, 0) case None => Bad case Some(e) => Good(JNumber(t[pos..e]), e)
  {
    hide ParseString;
    hide ParseWord;
    hide ScanNumber;
  }

  lemma {:induction false} DocReads(t: Text, pos: nat, d: Doc)
    requires Terminated(t) && IsDoc(d) && WordAt(t, pos, DocText(d)) && Ends(t, pos + |DocText(d)|, d)
    ensures ParseValue(t, pos) == Good(Means(d), pos + |DocText(d)|)
    decreases d, 2
  {
    hide WordAt;
    hide ParseValue;
    hide ItemsText;
    hide EntriesText;
    hide IsItem;
    hide IsEntry;
    hide IsBlank;
    hide NumberText;
    hide Quoted;
    hide UnitsMean;
    hide IsAccepted;
    hide AreUnits;
    hide IsNumeric;
    match d {
      case List(items) => ListReads(t, pos, items);
      case Object(entries) => ObjectReads(t, pos, entries);
      case NoItems(w) => EmptyReads(t, pos, w, true);
      case NoEntries(w) => EmptyReads(t, pos, w, false);
      case Num(n) => NumberLeaf(t, pos, n);
      case Str(us) => StringLeaf(t, pos, us);
      case _ => WordLeaf(t, pos, DocText(d));
    }
  }

  lemma DigitStartsNumber(c: Byte)
    ensures c in "-0123456789" ==> c !in "\"nft[{"
  {}

  lemma NumberLeaf(t: Text, pos: nat, n: Number)
    requires Terminated(t) && IsAccepted(n) && WordAt(t, pos, NumberText(n)) && Ends(t, pos + |NumberText(n)|, Num(n))
    ensures ParseValue(t, pos) == Good(JNumber(NumberText(n)), pos + |NumberText(n)|)
  {
    hide WordAt;
    hide ParseValue;
    hide ScanNumber;
    hide NumberText;
    hide IsAccepted;
    hide IsNumeric;
    NumberStarts(n);
    WordHas(t, pos, NumberText(n), 0);
    DigitStartsNumber(t[pos]);
    ByFirst(t, pos);
    hide Ends;
    NumberReads(t, pos, n);
    WordIs(t, pos, NumberText(n));
  }

  lemma WordLeaf(t: Text, pos: nat, w: Text)
    requires Terminated(t) && WordAt(t, pos, w) && w in ["null", "false", "true"]
    ensures var v := if w == "null" then JNull else if w == "false" then JFalse else JTrue;
            ParseValue(t, pos) == Good(v, pos + |w|)
  {
    hide WordAt;
    hide ParseValue;
    hide ParseWord;
    assert w != [];
    WordIs(t, pos, w);
    WordHas(t, pos, w, 0);
    ByFirst(t, pos);
    WordParses(t, pos, w, if w == "null" then JNull else if w == "false" then JFalse else JTrue);
  }

  lemma StringLeaf(t: Text, pos: nat, us: seq<Unit>)
    requires Terminated(t) && AreUnits(us) && WordAt(t, pos, Quoted(us))
    ensures ParseValue(t, pos) == Good(JString(UnitsMean(us)), pos + |Quoted(us)|)
  {
    hide WordAt;
    hide ParseValue;
    hide ParseString;
    hide Quoted;
    hide AreUnits;
    hide UnitsMean;
    QuoteStarts(us);
    WordHas(t, pos, Quoted(us), 0);
    WordIs(t, pos, Quoted(us));
    ByFirst(t, pos);
    WrittenStringReads(t, pos, us);
  }

  lemma {:induction false} ListReads(t: Text, pos: nat, items: seq<Item>)
    requires Terminated(t) && IsDoc(List(items)) && WordAt(t, pos, ['['] + ItemsText(items)) && pos + 1 + |ItemsText(items)| < |t|
    ensures ParseValue(t, pos) == Good(JList(ItemsMean(items)), pos + 1 + |ItemsText(items)|)
    decreases items, 2
  {
    hide WordAt;
    hide ParseItems;
    hide ParseMembers;
    hide Skip;
    hide ItemsText;
    hide ItemsMean;
    hide IsItem;
    WordHas(t, pos, ['['] + ItemsText(items), 0);
    WordSplit(t, pos, ['['], ItemsText(items));
    OpenedItems(t, pos + 1, items);
    ItemsRead(t, pos + 1, items, []);
    assert [] + ItemsMean(items) == ItemsMean(items);
  }

  lemma {:induction false} ObjectReads(t: Text, pos: nat, entries: seq<Entry>)
    requires Terminated(t) && IsDoc(Object(entries)) && WordAt(t, pos, ['{'] + EntriesText(entries))
    requires pos + 1 + |EntriesText(entries)| < |t|
    ensures ParseValue(t, pos) == Good(JObject(EntriesMean(entries)), pos + 1 + |EntriesText(entries)|)
    decreases entries, 2
  {
    hide WordAt;
    hide ParseItems;
    hide ParseMembers;
    hide Skip;
    hide EntriesText;
    hide EntriesMean;
    hide IsEntry;
    WordHas(t, pos, ['{'] + EntriesText(entries), 0);
    WordSplit(t, pos, ['{'], EntriesText(entries));
    OpenedEntries(t, pos + 1, entries);
    EntriesRead(t, pos + 1, entries, []);
    assert [] + EntriesMean(entries) == EntriesMean(entries);
  }

  lemma QuoteStarts(us: seq<Unit>)
    ensures Quoted(us) != [] && Quoted(us)[0] == '"'
  {}

  /** Brackets with nothing but blanks between them. */
  lemma EmptyReads(t: Text, pos: nat, w: Text, list: bool)
    requires var d := if list then NoItems(w) else NoEntries(w);
             Terminated(t) && IsBlank(w) && WordAt(t, pos, DocText(d)) && pos + |DocText(d)| < |t|
    ensures ParseValue(t, pos) == Good(if list then JList([]) else JObject([]), pos + |w| + 2)
  {
    hide WordAt;
    hide Skip;
    hide ParseItems;
    hide ParseMembers;
    var (open, close) := if list then ('[', ']') else ('{', '}');
    WordHas(t, pos, [open] + (w + [close]), 0);
    WordSplit(t, pos, [open], w + [close]);
    WordSplit(t, pos + 1, w, [close]);
    WordHas(t, pos + 1 + |w|, [close], 0);
    BlanksSkipped(t, pos + 1, w);
  }

  /** Where the parts of an item stand. */
  lemma ItemPlaces(t: Text, pos: nat, x: Item, more: Text)
    requires WordAt(t, pos, ItemText(x) + more)
    ensures var e := pos + |x.before| + |DocText(x.value)|;
            && WordAt(t, pos, x.before) && WordAt(t, pos + |x.before|, DocText(x.value)) && WordAt(t, e, x.after)
            && e + |x.after| == pos + |ItemText(x)| && WordAt(t, pos + |ItemText(x)|, more)
  {
    hide WordAt;
    hide DocText;
    WordSplit(t, pos, ItemText(x), more);
    WordSplit(t, pos, x.before, DocText(x.value) + x.after);
    WordSplit(t, pos + |x.before|, DocText(x.value), x.after);
  }

  /** The value of an item, its blanks, and the character behind them. */
  lemma {:induction false} ItemReads(t: Text, pos: nat, x: Item, more: Text)
    requires Terminated(t) && IsItem(x) && WordAt(t, pos, ItemText(x) + more) && more != [] && more[0] in ",]}"
    ensures pos + |ItemText(x)| < |t| && t[pos + |ItemText(x)|] == more[0] && WordAt(t, pos + |ItemText(x)|, more)
    ensures Skip(t, pos) == pos + |x.before|
    ensures ParseValue(t, pos + |x.before|) == Good(Means(x.value), pos + |x.before| + |DocText(x.value)|)
    ensures Skip(t, pos + |x.before| + |DocText(x.value)|) == pos + |ItemText(x)|
    decreases x, 0
  {
    hide WordAt;
    hide Skip;
    hide ParseValue;
    hide IsBlank;
    hide DocText;
    hide Means;
    hide IsDoc;
    hide IsNumeric;
    hide ItemText;
    hide Starts;
    hide IsSpace;
    var k := pos + |x.before|;
    var e := k + |DocText(x.value)|;
    var end := pos + |ItemText(x)|;
    ItemPlaces(t, pos, x, more);
    WordIs(t, end, more);
    WordHas(t, end, more, 0);
    DocStarts(x.value);
    WordHas(t, k, DocText(x.value), 0);
    StartsNoBlank(t[k]);
    BlanksSkipped(t, pos, x.before);
    BehindIsNoBlank(more[0]);
    BlanksSkipped(t, e, x.after);
    if x.after != [] { WordHas(t, e, x.after, 0); FirstIsSpace(x.after); }
    EndsNoNumber(t[e]);
    DocReads(t, k, x.value);
  }

  lemma BehindIsNoBlank(c: Byte)
    requires c in ",]}"
    ensures !IsSpace(c)
  {}

  lemma FirstIsSpace(w: Text)
    requires IsBlank(w) && w != []
    ensures IsSpace(w[0])
  {}

  /** One round of the parser's loop over a list. */
  lemma ListRound(t: Text, pos: nat, done: seq<Json>, v: Json, p: nat)
    requires Terminated(t) && pos < |t| && ParseValue(t, Skip(t, pos)) == Good(v, p)
    ensures var q := Skip(t, p);
            && (t[q] == ']' ==> ParseItems(t, Skip(t, pos), done) == Good(JList(done + [v]), q + 1))
            && (t[q] == ',' ==> ParseItems(t, Skip(t, pos), done) == ParseItems(t, Skip(t, q + 1), done + [v]))
  {
    hide ParseValue;
  }

  /** The first item of several, and the others behind its comma. */
  lemma ItemsSplit(t: Text, pos: nat, items: seq<Item>)
    requires items != [] && (forall i :: 0 <= i < |items| ==> IsItem(items[i])) && WordAt(t, pos, ItemsText(items))
    ensures IsItem(items[0]) && IsDoc(items[0].value) && ItemsMean(items) == [Means(items[0].value)] + ItemsMean(items[1..])
    ensures var q := pos + |ItemText(items[0])|;
            && WordAt(t, pos, ItemText(items[0]) + BehindItem(items)) && BehindItem(items) != []
            && (if |items| == 1 then BehindItem(items) == [']'] && pos + |ItemsText(items)| == q + 1 && ItemsMean(items[1..]) == []
                else BehindItem(items)[0] == ',' && WordAt(t, q + 1, ItemsText(items[1..]))
                     && pos + |ItemsText(items)| == q + 1 + |ItemsText(items[1..])|)
  {
    hide WordAt;
    hide ItemText;
    hide Means;
    assert IsItem(items[0]);
    hide IsDoc;
    WordSplit(t, pos, ItemText(items[0]), BehindItem(items));
    if |items| > 1 { WordSplit(t, pos + |ItemText(items[0])|, [','], ItemsText(items[1..])); }
  }

  lemma {:induction false} ItemsRead(t: Text, pos: nat, items: seq<Item>, done: seq<Json>)
    requires Terminated(t) && items != [] && (forall i :: 0 <= i < |items| ==> IsItem(items[i]))
    requires WordAt(t, pos, ItemsText(items)) && pos + |ItemsText(items)| < |t|
    ensures ParseItems(t, Skip(t, pos), done) == Good(JList(done + ItemsMean(items)), pos + |ItemsText(items)|)
    decreases items, 1
  {
    hide WordAt;
    hide Skip;
    hide ParseItems;
    hide ParseValue;
    hide ItemText;
    hide ItemsText;
    hide BehindItem;
    hide ItemsMean;
    hide Means;
    hide IsItem;
    ItemsSplit(t, pos, items);
    var x, rest, v := items[0], items[1..], Means(items[0].value);
    ItemReads(t, pos, x, BehindItem(items));
    ListRound(t, pos, done, v, pos + |x.before| + |DocText(x.value)|);
    if |items| == 1 {
      assert done + [v] == done + ItemsMean(items);
    } else {
      ItemsRead(t, pos + |ItemText(x)| + 1, rest, done + [v]);
      assert done + [v] + ItemsMean(rest) == done + ItemsMean(items);
    }
  }

  /** A list that is not empty does not look like an empty one. */
  lemma OpenedItems(t: Text, pos: nat, items: seq<Item>)
    requires Terminated(t) && items != [] && IsItem(items[0]) && WordAt(t, pos, ItemsText(items)) && pos + |ItemsText(items)| < |t|
    ensures t[Skip(t, pos)] != ']'
  {
    hide WordAt;
    hide Skip;
    hide DocText;
    hide IsDoc;
    hide IsBlank;
    var x := items[0];
    var more := BehindItem(items);
    WordSplit(t, pos, ItemText(x), more);
    OpenedItem(t, pos, x);
  }

  lemma OpenedItem(t: Text, pos: nat, x: Item)
    requires Terminated(t) && IsItem(x) && WordAt(t, pos, ItemText(x))
    ensures var k := pos + |x.before|; k < |t| && Skip(t, pos) == k && Starts(t[k])
  {
    hide WordAt;
    hide Skip;
    hide DocText;
    hide IsDoc;
    hide IsBlank;
    var k := pos + |x.before|;
    DocStarts(x.value);
    WordIs(t, pos, ItemText(x));
    WordSplit(t, pos, x.before, DocText(x.value) + x.after);
    WordSplit(t, k, DocText(x.value), x.after);
    WordHas(t, k, DocText(x.value), 0);
    StartsNoBlank(t[k]);
    BlanksSkipped(t, pos, x.before);
  }

  /** The key of a member up to its colon. */
  lemma KeyReads(t: Text, pos: nat, x: Entry)
    requires Terminated(t) && IsEntry(x) && WordAt(t, pos, EntryText(x))
    ensures var k := pos + |x.before|;
            var q := k + |Quoted(x.key)| + |x.gap|;
            && q < |t| && Skip(t, pos) == k && t[k] == '"' && ParseString(t, k) == Good(JString(UnitsMean(x.key)), k + |Quoted(x.key)|)
            && Skip(t, k + |Quoted(x.key)|) == q && t[q] == ':' && WordAt(t, q + 1, ItemText(x.item))
  {
    hide WordAt;
    hide Skip;
    hide Quoted;
    hide ParseString;
    hide ItemText;
    hide IsItem;
    hide IsBlank;
    hide AreUnits;
    hide UnitsMean;
    var k := pos + |x.before|;
    var e := k + |Quoted(x.key)|;
    var q := e + |x.gap|;
    WordIs(t, pos, EntryText(x));
    WordSplit(t, pos, x.before, Quoted(x.key) + (x.gap + ([':'] + ItemText(x.item))));
    WordSplit(t, k, Quoted(x.key), x.gap + ([':'] + ItemText(x.item)));
    WordSplit(t, e, x.gap, [':'] + ItemText(x.item));
    WordSplit(t, q, [':'], ItemText(x.item));
    WordHas(t, q, [':'], 0);
    QuoteStarts(x.key);
    WordHas(t, k, Quoted(x.key), 0);
    WrittenStringReads(t, k, x.key);
    StartsNoBlank('"');
    BlanksSkipped(t, pos, x.before);
    BlanksSkipped(t, e, x.gap);
  }

  /** One round of the parser's loop over an object. */
  lemma ObjectRound(t: Text, pos: nat, done: seq<Member>, key: Text, e: nat, v: Json, p: nat)
    requires Terminated(t) && pos < |t| && ParseString(t, Skip(t, pos)) == Good(JString(key), e)
    requires var c := Skip(t, e); t[c] == ':' && ParseValue(t, Skip(t, c + 1)) == Good(v, p)
    ensures var q, m := Skip(t, p), Member(key, v);
            && (t[q] == '}' ==> ParseMembers(t, Skip(t, pos), done) == Good(JObject(done + [m]), q + 1))
            && (t[q] == ',' ==> ParseMembers(t, Skip(t, pos), done) == ParseMembers(t, Skip(t, q + 1), done + [m]))
  {
    hide ParseValue;
    hide ParseString;
  }

  lemma ItemsMeanFirst(items: seq<Item>)
    requires items != [] && forall i :: 0 <= i < |items| ==> IsItem(items[i])
    ensures IsItem(items[0]) && IsDoc(items[0].value) && ItemsMean(items) == [Means(items[0].value)] + ItemsMean(items[1..])
  {
    hide Means;
    hide IsBlank;
    assert IsItem(items[0]);
    hide IsDoc;
  }

  lemma EntriesMeanFirst(entries: seq<Entry>)
    requires entries != [] && forall i :: 0 <= i < |entries| ==> IsEntry(entries[i])
    ensures var x := entries[0];
            && IsEntry(x) && IsItem(x.item) && IsDoc(x.item.value) && AreUnits(x.key)
            && EntriesMean(entries) == [Member(UnitsMean(x.key), Means(x.item.value))] + EntriesMean(entries[1..])
  {
    hide Means;
    hide UnitsMean;
    hide AreUnits;
    hide IsBlank;
    assert IsEntry(entries[0]);
    assert IsItem(entries[0].item);
    hide IsDoc;
  }

  lemma EntriesSplit(t: Text, pos: nat, entries: seq<Entry>)
    requires entries != [] && WordAt(t, pos, EntriesText(entries))
    ensures var q := pos + |EntryText(entries[0])|;
            && WordAt(t, pos, EntryText(entries[0])) && WordAt(t, q, BehindEntry(entries)) && BehindEntry(entries) != []
            && (if |entries| == 1 then BehindEntry(entries) == ['}'] && pos + |EntriesText(entries)| == q + 1
                else BehindEntry(entries)[0] == ',' && WordAt(t, q + 1, EntriesText(entries[1..]))
                     && pos + |EntriesText(entries)| == q + 1 + |EntriesText(entries[1..])|)
  {
    hide WordAt;
    hide EntryText;
    WordSplit(t, pos, EntryText(entries[0]), BehindEntry(entries));
    if |entries| > 1 { WordSplit(t, pos + |EntryText(entries[0])|, [','], EntriesText(entries[1..])); }
  }

  lemma NoMembers()
    ensures EntriesMean([]) == []
  {}

  /** One member, up to the character behind it. */
  lemma {:induction false} EntryReads(t: Text, pos: nat, x: Entry, more: Text, done: seq<Member>)
    requires Terminated(t) && IsEntry(x) && WordAt(t, pos, EntryText(x)) && WordAt(t, pos + |EntryText(x)|, more)
    requires more != [] && more[0] in ",}"
    ensures IsItem(x.item) && pos + |EntryText(x)| < |t| && t[pos + |EntryText(x)|] == more[0]
    ensures var q, m := pos + |EntryText(x)|, Member(UnitsMean(x.key), Means(x.item.value));
            && (t[q] == '}' ==> ParseMembers(t, Skip(t, pos), done) == Good(JObject(done + [m]), q + 1))
            && (t[q] == ',' ==> ParseMembers(t, Skip(t, pos), done) == ParseMembers(t, Skip(t, q + 1), done + [m]))
    decreases x, 1
  {
    hide WordAt;
    hide Skip;
    hide ParseMembers;
    hide ParseValue;
    hide ParseString;
    hide ItemText;
    hide Means;
    hide Quoted;
    hide UnitsMean;
    hide IsBlank;
    hide IsDoc;
    KeyReads(t, pos, x);
    var e := pos + |x.before| + |Quoted(x.key)|;
    var c := e + |x.gap|;
    WordSplit(t, c + 1, ItemText(x.item), more);
    ItemReads(t, c + 1, x.item, more);
    ObjectRound(t, pos, done, UnitsMean(x.key), e, Means(x.item.value), c + 1 + |x.item.before| + |DocText(x.item.value)|);
  }

  lemma {:induction false} EntriesRead(t: Text, pos: nat, entries: seq<Entry>, done: seq<Member>)
    requires Terminated(t) && entries != [] && (forall i :: 0 <= i < |entries| ==> IsEntry(entries[i]))
    requires WordAt(t, pos, EntriesText(entries)) && pos + |EntriesText(entries)| < |t|
    ensures ParseMembers(t, Skip(t, pos), done) == Good(JObject(done + EntriesMean(entries)), pos + |EntriesText(entries)|)
    decreases entries, 1
  {
    hide WordAt;
    hide Skip;
    hide ParseMembers;
    hide EntryText;
    hide EntriesText;
    hide BehindEntry;
    hide EntriesMean;
    hide Means;
    hide UnitsMean;
    hide IsEntry;
    hide IsItem;
    hide AreUnits;
    EntriesMeanFirst(entries);
    EntriesSplit(t, pos, entries);
    NoMembers();
    var x, rest := entries[0], entries[1..];
    var m := Member(UnitsMean(x.key), Means(x.item.value));
    EntryReads(t, pos, x, BehindEntry(entries), done);
    if |entries| == 1 {
      assert rest == [] && done + [m] == done + EntriesMean(entries);
    } else {
      EntriesRead(t, pos + |EntryText(x)| + 1, rest, done + [m]);
      assert done + [m] + EntriesMean(rest) == done + EntriesMean(entries);
    }
  }

  lemma OpenedEntries(t: Text, pos: nat, entries: seq<Entry>)
    requires Terminated(t) && entries != [] && IsEntry(entries[0]) && WordAt(t, pos, EntriesText(entries))
    ensures pos < |t| && t[Skip(t, pos)] != '}'
  {
    hide WordAt;
    hide Skip;
    hide EntryText;
    WordSplit(t, pos, EntryText(entries[0]), BehindEntry(entries));
    KeyReads(t, pos, entries[0]);
  }

  // ----- what is read was written by the grammar -----

  lemma {:induction false} ValueScanned(t: Text, pos: nat) returns (d: Doc)
    requires Terminated(t) && pos < |t| && ParseValue(t, pos).Good?
    ensures var r := ParseValue(t, pos); IsDoc(d) && DocText(d) == t[pos..r.pos] && Means(d) == r.v && Ends(t, r.pos, d)
    decreases |t| - pos, 0, 1
  {
    hide ParseString;
    hide ParseWord;
    hide ScanNumber;
    hide IsNumeric;
    if t[pos] == '[' {
      d := ListScanned(t, pos);
    } else if t[pos] == '{' {
      d := ObjectScanned(t, pos);
    } else {
      hide ParseValue;
      d := LeafScanned(t, pos);
    }
  }

  lemma WordScanned(t: Text, pos: nat, w: Text, v: Json)
    requires Terminated(t) && pos < |t| && w != [] && (forall i :: 0 <= i < |w| ==> w[i] != '\0') && ParseWord(t, pos, w, v).Good?
    ensures ParseWord(t, pos, w, v) == Good(v, pos + |w|) && pos + |w| < |t| && t[pos..pos + |w|] == w
  {}

  lemma LeafScanned(t: Text, pos: nat) returns (d: Doc)
    requires Terminated(t) && pos < |t| && t[pos] !in "[{" && ParseValue(t, pos).Good?
    ensures var r := ParseValue(t, pos); IsDoc(d) && DocText(d) == t[pos..r.pos] && Means(d) == r.v && Ends(t, r.pos, d)
  {
    hide ParseValue;
    hide ParseString;
    hide ParseWord;
    hide ScanNumber;
    hide IsNumeric;
    hide IsAccepted;
    hide NumberText;
    hide AreUnits;
    hide Quoted;
    hide UnitsMean;
    ByFirst(t, pos);
    if t[pos] == '"' {
      var us := StringRead(t, pos);
      d := Str(us);
    } else if t[pos] == 'n' {
      WordScanned(t, pos, ['n', 'u', 'l', 'l'], JNull);
      d := Null;
    } else if t[pos] == 'f' {
      WordScanned(t, pos, ['f', 'a', 'l', 's', 'e'], JFalse);
      d := False;
    } else if t[pos] == 't' {
      WordScanned(t, pos, ['t', 'r', 'u', 'e'], JTrue);
      d := True;
    } else {
      var n := NumberScanned(t, pos);
      d := Num(n);
    }
  }

  lemma {:induction false} ListScanned(t: Text, pos: nat) returns (d: Doc)
    requires Terminated(t) && pos < |t| && t[pos] == '[' && ParseValue(t, pos).Good?
    ensures var r := ParseValue(t, pos); IsDoc(d) && DocText(d) == t[pos..r.pos] && Means(d) == r.v && Ends(t, r.pos, d)
    decreases |t| - pos, 0, 0
  {
    hide ParseItems;
    hide Skip;
    hide IsItem;
    hide ItemsText;
    hide ItemsMean;
    hide IsBlank;
    var e, p := ParseValue(t, pos).pos, Skip(t, pos + 1);
    SkippedIsBlank(t, pos + 1);
    if t[p] == ']' {
      d := NoItems(t[pos + 1..p]);
      assert t[pos..e] == ['['] + (t[pos + 1..p] + [']']);
    } else {
      var items := ItemsScanned(t, pos + 1, []);
      d := List(items);
      assert [] + ItemsMean(items) == ItemsMean(items);
      assert t[pos..e] == ['['] + t[pos + 1..e];
    }
  }

  lemma ListRoundGood(t: Text, k: nat, done: seq<Json>)
    requires Terminated(t) && k < |t| && ParseItems(t, k, done).Good?
    ensures ParseValue(t, k).Good? && (var q := Skip(t, ParseValue(t, k).pos); t[q] == ']' || (t[q] == ',' && q + 1 < |t|))
  {
    hide ParseValue;
  }

  /** An item from its value. */
  lemma ItemScanned(t: Text, pos: nat, d: Doc) returns (x: Item)
    requires Terminated(t) && pos < |t| && ParseValue(t, Skip(t, pos)).Good? && IsDoc(d)
    requires DocText(d) == t[Skip(t, pos)..ParseValue(t, Skip(t, pos)).pos]
    ensures IsItem(x) && x.value == d && ItemText(x) == t[pos..Skip(t, ParseValue(t, Skip(t, pos)).pos)]
  {
    hide ParseValue;
    hide Skip;
    hide IsBlank;
    hide IsDoc;
    hide DocText;
    var k := Skip(t, pos);
    var p := ParseValue(t, k).pos;
    var q := Skip(t, p);
    SkippedIsBlank(t, pos);
    SkippedIsBlank(t, p);
    x := Item(t[pos..k], d, t[p..q]);
    assert t[pos..q] == t[pos..k] + (t[k..p] + t[p..q]);
  }

  lemma {:induction false} ItemsScanned(t: Text, pos: nat, done: seq<Json>) returns (items: seq<Item>)
    requires Terminated(t) && pos < |t| && ParseItems(t, Skip(t, pos), done).Good?
    ensures items != [] && forall i :: 0 <= i < |items| ==> IsItem(items[i])
    ensures var r := ParseItems(t, Skip(t, pos), done); ItemsText(items) == t[pos..r.pos] && r.v == JList(done + ItemsMean(items))
    decreases |t| - Skip(t, pos), 1
  {
    hide ParseValue;
    hide ParseItems;
    hide Skip;
    hide IsItem;
    hide ItemText;
    hide ItemsText;
    hide ItemsMean;
    hide DocText;
    hide Means;
    var k := Skip(t, pos);
    var e := ParseItems(t, k, done).pos;
    ListRoundGood(t, k, done);
    var d := ValueScanned(t, k);
    var Good(v, p) := ParseValue(t, k);
    var q := Skip(t, p);
    ListRound(t, pos, done, v, p);
    var x := ItemScanned(t, pos, d);
    if t[q] == ']' {
      items := [x];
      OneItem(x);
      assert t[pos..e] == t[pos..q] + [']'];
    } else {
      var rest := ItemsScanned(t, q + 1, done + [v]);
      items := [x] + rest;
      MoreItems(x, rest);
      assert t[pos..e] == t[pos..q] + ([','] + t[q + 1..e]);
      assert done + [v] + ItemsMean(rest) == done + ([v] + ItemsMean(rest));
    }
  }

  lemma OneItem(x: Item)
    requires IsItem(x)
    ensures IsDoc(x.value) && ItemsText([x]) == ItemText(x) + [']'] && ItemsMean([x]) == [Means(x.value)]
  {
    assert [x][1..] == [];
  }

  lemma MoreItems(x: Item, rest: seq<Item>)
    requires IsItem(x) && rest != [] && forall i :: 0 <= i < |rest| ==> IsItem(rest[i])
    ensures var items := [x] + rest;
            && IsDoc(x.value) && (forall i :: 0 <= i < |items| ==> IsItem(items[i]))
            && ItemsText(items) == ItemText(x) + ([','] + ItemsText(rest)) && ItemsMean(items) == [Means(x.value)] + ItemsMean(rest)
  {
    hide ItemText;
    hide Means;
    assert ([x] + rest)[1..] == rest;
  }

  lemma {:induction false} ObjectScanned(t: Text, pos: nat) returns (d: Doc)
    requires Terminated(t) && pos < |t| && t[pos] == '{' && ParseValue(t, pos).Good?
    ensures var r := ParseValue(t, pos); IsDoc(d) && DocText(d) == t[pos..r.pos] && Means(d) == r.v && Ends(t, r.pos, d)
    decreases |t| - pos, 0, 0
  {
    hide ParseMembers;
    hide Skip;
    hide IsEntry;
    hide EntriesText;
    hide EntriesMean;
    hide IsBlank;
    var e, p := ParseValue(t, pos).pos, Skip(t, pos + 1);
    SkippedIsBlank(t, pos + 1);
    if t[p] == '}' {
      d := NoEntries(t[pos + 1..p]);
      assert t[pos..e] == ['{'] + (t[pos + 1..p] + ['}']);
    } else {
      var entries := EntriesScanned(t, pos + 1, []);
      d := Object(entries);
      assert [] + EntriesMean(entries) == EntriesMean(entries);
      assert t[pos..e] == ['{'] + t[pos + 1..e];
    }
  }

  lemma ObjectRoundGood(t: Text, k: nat, done: seq<Member>)
    requires Terminated(t) && k < |t| && ParseMembers(t, k, done).Good?
    ensures ParseString(t, k).Good? && (var c := Skip(t, ParseString(t, k).pos); t[c] == ':' && c + 1 < |t|)
    ensures var r := ParseValue(t, Skip(t, Skip(t, ParseString(t, k).pos) + 1));
            r.Good? && (var q := Skip(t, r.pos); t[q] == '}' || (t[q] == ',' && q + 1 < |t|))
  {
    hide ParseValue;
    hide ParseString;
  }

  lemma {:induction false} EntriesScanned(t: Text, pos: nat, done: seq<Member>) returns (entries: seq<Entry>)
    requires Terminated(t) && pos < |t| && ParseMembers(t, Skip(t, pos), done).Good?
    ensures entries != [] && forall i :: 0 <= i < |entries| ==> IsEntry(entries[i])
    ensures var r := ParseMembers(t, Skip(t, pos), done);
            EntriesText(entries) == t[pos..r.pos] && r.v == JObject(done + EntriesMean(entries))
    decreases |t| - Skip(t, pos), 1
  {
    hide ParseMembers;
    hide ParseValue;
    hide ParseString;
    hide Skip;
    hide EntryText;
    hide EntriesText;
    hide EntriesMean;
    hide DocText;
    hide Means;
    hide UnitsMean;
    hide AreUnits;
    hide IsEntry;
    hide IsDoc;
    var k := Skip(t, pos);
    var end := ParseMembers(t, k, done).pos;
    ObjectRoundGood(t, k, done);
    var Good(key, e) := ParseString(t, k);
    var c := Skip(t, e);
    var j := Skip(t, c + 1);
    var Good(v, p) := ParseValue(t, j);
    var q := Skip(t, p);
    var d := ValueScanned(t, j);
    ObjectRound(t, pos, done, key.s, e, v, p);
    var x := EntryScanned(t, pos, Places(k, e, c, j, p), d);
    var m := Member(key.s, v);
    if t[q] == '}' {
      entries := [x];
      OneEntry(x);
      assert t[pos..end] == t[pos..q] + ['}'];
    } else {
      var rest := EntriesScanned(t, q + 1, done + [m]);
      entries := [x] + rest;
      MoreEntries(x, rest);
      assert t[pos..end] == t[pos..q] + ([','] + t[q + 1..end]);
      assert done + [m] + EntriesMean(rest) == done + ([m] + EntriesMean(rest));
    }
  }

  /** Where the parts of a member stand: its key from `k` to `e`, its colon at `c`, and its value from `j` to `p`. */
  datatype Places = Places(k: nat, e: nat, c: nat, j: nat, p: nat)

  ghost predicate AreParts(t: Text, pos: nat, x: Places, d: Doc)
    requires Terminated(t) && pos < |t|
  {
    && x.k == Skip(t, pos) && ParseString(t, x.k).Good? && x.e == ParseString(t, x.k).pos
    && x.c == Skip(t, x.e) && x.c + 1 < |t| && t[x.c] == ':' && x.j == Skip(t, x.c + 1)
    && ParseValue(t, x.j).Good? && x.p == ParseValue(t, x.j).pos && IsDoc(d) && DocText(d) == t[x.j..x.p]
  }

  /** A member from its key and its value. */
  lemma EntryScanned(t: Text, pos: nat, at: Places, d: Doc) returns (x: Entry)
    requires Terminated(t) && pos < |t| && AreParts(t, pos, at, d)
    ensures IsEntry(x) && AreUnits(x.key) && x.item.value == d && ParseString(t, at.k).v == JString(UnitsMean(x.key))
    ensures EntryText(x) == t[pos..Skip(t, at.p)]
  {
    hide ParseValue;
    hide ParseString;
    hide Skip;
    hide IsBlank;
    hide AreUnits;
    hide UnitsMean;
    hide Quoted;
    hide IsDoc;
    hide DocText;
    var us := StringRead(t, at.k);
    var Places(k, e, c, j, p) := at;
    var q := Skip(t, p);
    SkippedIsBlank(t, pos);
    SkippedIsBlank(t, e);
    SkippedIsBlank(t, c + 1);
    SkippedIsBlank(t, p);
    x := Entry(t[pos..k], us, t[e..c], Item(t[c + 1..j], d, t[p..q]));
    assert IsItem(x.item);
    EntryJoins(t, pos, at, q);
  }

  lemma EntryJoins(t: Text, pos: nat, at: Places, q: nat)
    requires pos <= at.k <= at.e <= at.c < at.c + 1 <= at.j <= at.p <= q <= |t| && t[at.c] == ':'
    ensures t[pos..q] == t[pos..at.k] + (t[at.k..at.e] + (t[at.e..at.c] + ([':'] + (t[at.c + 1..at.j] + (t[at.j..at.p] + t[at.p..q])))))
  {
    assert t[at.c + 1..q] == t[at.c + 1..at.j] + (t[at.j..at.p] + t[at.p..q]);
    assert t[at.c..q] == [':'] + t[at.c + 1..q];
    assert t[pos..q] == t[pos..at.k] + (t[at.k..at.e] + (t[at.e..at.c] + t[at.c..q]));
  }

  lemma OneEntry(x: Entry)
    requires IsEntry(x) && AreUnits(x.key)
    ensures IsDoc(x.item.value) && EntriesText([x]) == EntryText(x) + ['}']
    ensures EntriesMean([x]) == [Member(UnitsMean(x.key), Means(x.item.value))]
  {
    assert [x][1..] == [];
    assert IsItem(x.item);
  }

  lemma MoreEntries(x: Entry, rest: seq<Entry>)
    requires IsEntry(x) && AreUnits(x.key) && rest != [] && forall i :: 0 <= i < |rest| ==> IsEntry(rest[i])
    ensures var entries := [x] + rest;
            && IsDoc(x.item.value) && (forall i :: 0 <= i < |entries| ==> IsEntry(entries[i]))
            && EntriesText(entries) == EntryText(x) + ([','] + EntriesText(rest))
            && EntriesMean(entries) == [Member(UnitsMean(x.key), Means(x.item.value))] + EntriesMean(rest)
  {
    hide EntryText;
    hide UnitsMean;
    hide Means;
    assert ([x] + rest)[1..] == rest;
    assert IsItem(x.item);
  }

  // ----- whole texts -----

  /** A document between blanks, up to the first NUL. */
  function WholeText(before: Text, d: Doc, after: Text): Text { before + (DocText(d) + (after + ['\0'])) }

  /** Every text of the grammar is read as what it means. */
  lemma WrittenTextParses(t: Text, before: Text, d: Doc, after: Text)
    requires Terminated(t) && IsBlank(before) && IsDoc(d) && IsBlank(after) && WholeText(before, d, after) <= t
    ensures Parse(t) == Some(Means(d))
  {
    hide ParseValue;
    hide Skip;
    hide IsBlank;
    hide IsDoc;
    hide DocText;
    hide Means;
    hide WordAt;
    hide IsNumeric;
    hide Starts;
    var k := |before|;
    var e := k + |DocText(d)|;
    var end := e + |after|;
    WordAtStart(t, WholeText(before, d, after));
    WordSplit(t, 0, before, DocText(d) + (after + ['\0']));
    WordSplit(t, k, DocText(d), after + ['\0']);
    WordSplit(t, e, after, ['\0']);
    WordHas(t, end, ['\0'], 0);
    DocStarts(d);
    WordHas(t, k, DocText(d), 0);
    StartsNoBlank(t[k]);
    BlanksSkipped(t, 0, before);
    BlanksSkipped(t, e, after);
    if after != [] { WordHas(t, e, after, 0); FirstIsSpace(after); }
    EndsNoNumber(t[e]);
    DocReads(t, k, d);
  }

  lemma WordAtStart(t: Text, w: Text)
    requires w <= t
    ensures WordAt(t, 0, w)
  {}

  /** What is read is a text of the grammar, and means what was read. */
  lemma ParsedTextWasWritten(t: Text) returns (before: Text, d: Doc, after: Text)
    requires Terminated(t) && Parse(t).Some?
    ensures IsBlank(before) && IsDoc(d) && IsBlank(after) && WholeText(before, d, after) <= t && Parse(t) == Some(Means(d))
  {
    hide ParseValue;
    hide Skip;
    hide IsBlank;
    hide IsDoc;
    hide DocText;
    hide Means;
    var k := Skip(t, 0);
    d := ValueScanned(t, k);
    var p := ParseValue(t, k).pos;
    var q := Skip(t, p);
    SkippedIsBlank(t, 0);
    SkippedIsBlank(t, p);
    before, after := t[0..k], t[p..q];
    assert WholeText(before, d, after) == t[..q + 1];
  }
}
