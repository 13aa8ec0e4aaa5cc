/** Templates as they are written with the standard delimiters, and what the smallest of them print. */
module MustacheTexts {
  import opened Common
  import opened JsonSpec
  import JsonGrammar
  import JsonNumbers
  import opened MustacheModel
  import opened MustacheFlat
  import opened MustacheParse
  import opened MustacheScan
  import opened MustacheTrim
  import opened MustacheMeaning
  import opened MustacheMachine
  import opened MustacheHtml
  import opened MustacheLanguage
  import opened Mustache

  const BARE := Usual(false, 0, 0)

  /** The forms of a tag between the standard delimiters. */
  lemma TagForms(text: Text, name: Text)
    ensures TagText(Piece(text, Tag, name), BARE, STANDARD) == "{{" + (([] + name) + "}}")
    ensures TagText(Piece(text, UnescapeTag, name), BARE, STANDARD) == "{{" + (("{" + name) + "}}}")
    ensures TagText(Piece(text, UnescapeTag, name), Usual(true, 0, 0), STANDARD) == "{{" + (("&" + name) + "}}")
    ensures TagText(Piece(text, OpenBlock, name), BARE, STANDARD) == "{{" + (("#" + name) + "}}")
    ensures TagText(Piece(text, ElseBlock, name), BARE, STANDARD) == "{{" + (("^" + name) + "}}")
    ensures TagText(Piece(text, CloseBlock, name), BARE, STANDARD) == "{{" + (("/" + name) + "}}")
    ensures TagText(Piece(text, Partial(0), name), BARE, STANDARD) == "{{" + ((">" + name) + "}}")
    ensures TagText(Piece(text, Ignore, name), BARE, STANDARD) == "{{" + (("!" + name) + "}}")
  {
    NotPadded(name);
    hide Blanks;
  }

  lemma NotPadded(name: Text)
    ensures Blanks(0) + name + Blanks(0) == name
  {}

  /** Letters, digits, underscores and dots. */
  predicate IsPlainName(name: Text) {
    name != [] && forall i :: 0 <= i < |name| ==>
      'a' <= name[i] <= 'z' || 'A' <= name[i] <= 'Z' || '0' <= name[i] <= '9' || name[i] == '_' || name[i] == '.'
  }

  /** The forms of a tag that prints a value: escaped, or not in three braces or with an ampersand. */
  datatype Form = Double | Triple | Ampersand

  function FormText(f: Form, name: Text): Text {
    match f
    case Double => "{{" + (name + "}}")
    case Triple => "{{" + (("{" + name) + "}}}")
    case Ampersand => "{{" + (("&" + name) + "}}")
  }

  function FormKind(f: Form): Kind { if f.Double? then Tag else UnescapeTag }

  function FormMark(f: Form): Mark { Usual(f.Ampersand?, 0, 0) }

  function Around(before: Text, f: Form, name: Text): Written { Written(Piece(before, FormKind(f), name), FormMark(f)) }

  lemma FormIsTag(before: Text, f: Form, name: Text)
    ensures TagText(Around(before, f, name).piece, FormMark(f), STANDARD) == FormText(f, name)
  {
    TagForms(before, name);
    hide TagText;
    assert [] + name == name;
  }

  lemma StandsFirst(body: Text, k: nat, w: Text)
    ensures w != [] && Stands(body, k, w) ==> k < |body| && body[k] == w[0]
  {
    if w != [] && Stands(body, k, w) { assert body[k..k + |w|][0] == body[k]; }
  }

  lemma NoneBehind(s: Text, w: Text)
    requires w != [] && w[0] !in s
    ensures FirstBehind(s, w)
  {
    forall k | 0 <= k < |s| ensures !Stands(s + w, k, w) {
      StandsFirst(s + w, k, w);
    }
  }

  lemma FormIsClean(before: Text, f: Form, name: Text)
    requires '{' !in before && IsPlainName(name)
    ensures Clean(Around(before, f, name), STANDARD)
  {
    var w := Around(before, f, name);
    var inside := Inside(w.piece, w.mark);
    assert Blanks(0) + name + Blanks(0) == name;
    assert inside == (if f.Double? then [] else if f.Triple? then ['{'] else ['&']) + name;
    NoneBehind(before, STANDARD.open);
    NoneBehind(inside, STANDARD.close);
  }

  function OneTag(before: Text, f: Form, name: Text, after: Text): Template {
    More(before, Value(name, f.Double?), Last(after))
  }

  lemma OneTagStays(before: Text, f: Form, name: Text, after: Text)
    ensures Trimmed(OneTag(before, f, name, after)) == OneTag(before, f, name, after)
  {
    hide Nest;
    var t := OneTag(before, f, name, after);
    var cuts := Cuts(Pieces(t), after);
    assert Pieces(t) == [Piece(before, FormKind(f), name)];
    OtherTagsStay(cuts, 0);
    TrimOne(cuts);
    NestPieces(t, [], after);
    assert Pieces(t) + [] == Pieces(t);
    TrimmedNests(t);
  }

  lemma TrimOne(c: Cuts)
    requires |c.pieces| == 1 && TrimTag(c, 0) == c
    ensures Trim(c) == c
  {
    hide TrimTag;
    assert TrimTags(c, 1) == TrimTags(TrimTag(c, 0), 0);
  }

  /**
   * From text to output for one tag: two braces print a string escaped, three braces and the ampersand print it as it is;
   * the escaped text shows as the string in a browser and holds no markup.
   */
  lemma OneTagPrints(lib: Library, before: Text, f: Form, name: Text, after: Text, ctx: Json, s: Text)
    requires '{' !in before && '{' !in after && IsPlainName(name) && Find(name, [ctx]) == Some(JString(s))
    ensures var body := before + FormText(f, name) + after;
            && Compile(body).Some?
            && RendersTo(lib, Compile(body).value, ctx, Prints(before + (if f.Double? then Html(s) else s) + after))
    ensures Unhtml(Html(s)) == s && NoMarkUp(Html(s))
  {
    hide Compile;
    hide RendersTo;
    hide Clean;
    hide Find;
    hide Html;
    hide Unhtml;
    hide MarkUp;
    var t, w := OneTag(before, f, name, after), Around(before, f, name);
    FormIsTag(before, f, name);
    FormIsClean(before, f, name);
    NoOpening(after);
    OneTagWritten(w, after);
    assert Pieces(t) == [w.piece];
    WrittenRenders(lib, t, [w], ctx, 0);
    OneTagStays(before, f, name, after);
    OneTagMeans(lib, before, f, name, after, ctx, s);
    UnhtmlHtml(s);
    HtmlIsSafe(s);
  }

  lemma OneTagWritten(w: Written, after: Text)
    requires Clean(w, STANDARD) && w.mark.Usual? && forall k :: 0 <= k < |after| ==> !Stands(after, k, STANDARD.open)
    ensures AllClean([w], after, STANDARD) && PiecesOf([w]) == [w.piece]
    ensures AllText([w], after, STANDARD) == w.piece.text + TagText(w.piece, w.mark, STANDARD) + after
  {
    hide Clean;
    hide TagText;
    assert [w][1..] == [];
    assert AllText([], after, STANDARD) == after;
  }

  lemma NoOpening(after: Text)
    requires '{' !in after
    ensures forall k :: 0 <= k < |after| ==> !Stands(after, k, STANDARD.open)
  {
    forall k | 0 <= k < |after| ensures !Stands(after, k, STANDARD.open) {
      StandsFirst(after, k, STANDARD.open);
    }
  }

  lemma OneTagMeans(lib: Library, before: Text, f: Form, name: Text, after: Text, ctx: Json, s: Text)
    requires Find(name, [ctx]) == Some(JString(s))
    ensures Eval(lib, OneTag(before, f, name, after), [ctx], 0, true, 0) == Prints(before + (if f.Double? then Html(s) else s) + after)
  {
    hide Find;
    hide Html;
    TagPrints(lib, name, f.Double?, [ctx], 0, 0);
  }

  // ----- contexts that were read from a text -----

  lemma NumberIsClean(n: JsonNumbers.Number)
    requires JsonNumbers.IsAccepted(n)
    ensures NoMarkUp(JsonNumbers.NumberText(n))
  {
    DigitsAreClean(n.whole);
    if n.fraction.Some? { DigitsAreClean(n.fraction.value); }
    if n.exponent.Some? { ExponentIsClean(n.exponent.value); }
    hide JsonNumbers.AreDigits;
    hide JsonNumbers.IsMark;
    hide JsonNumbers.ExponentText;
    hide MarkUp;
    assert NoMarkUp(['-']) && NoMarkUp(['.']) by { SignsAreClean(); }
  }

  lemma SignsAreClean()
    ensures NoMarkUp(['-']) && NoMarkUp(['.']) && NoMarkUp(['+']) && NoMarkUp(['e']) && NoMarkUp(['E'])
  {}

  lemma DigitsAreClean(ds: Text)
    requires JsonNumbers.AreDigits(ds)
    ensures NoMarkUp(ds)
  {
    forall i | 0 <= i < |ds| ensures !MarkUp(ds[i]) { assert ds[i] in "0123456789"; }
  }

  lemma ExponentIsClean(x: JsonNumbers.Exponent)
    requires JsonNumbers.IsMark(x)
    ensures NoMarkUp(JsonNumbers.ExponentText(x))
  {
    DigitsAreClean(x.digits);
    hide JsonNumbers.AreDigits;
  }

  lemma {:induction false} DocIsClean(d: JsonGrammar.Doc)
    requires JsonGrammar.IsDoc(d)
    ensures CleanNumbers(JsonGrammar.Means(d))
    decreases d, 1
  {
    hide NoMarkUp;
    hide JsonNumbers.IsAccepted;
    hide JsonNumbers.NumberText;
    hide JsonGrammar.IsItem;
    hide JsonGrammar.IsEntry;
    match d {
      case Num(n) => NumberIsClean(n);
      case List(items) =>
        ItemsAreClean(items);
        assert JsonGrammar.Means(d) == JList(JsonGrammar.ItemsMean(items));
      case Object(entries) =>
        EntriesAreClean(entries);
        assert JsonGrammar.Means(d) == JObject(JsonGrammar.EntriesMean(entries));
      case _ =>
    }
  }

  lemma {:induction false} ItemsAreClean(items: seq<JsonGrammar.Item>)
    requires forall i :: 0 <= i < |items| ==> JsonGrammar.IsItem(items[i])
    ensures var vs := JsonGrammar.ItemsMean(items); forall i :: 0 <= i < |vs| ==> CleanNumbers(vs[i])
    decreases items, 0
  {
    hide CleanNumbers;
    if items != [] {
      JsonGrammar.ItemsMeanFirst(items);
      DocIsClean(items[0].value);
      ItemsAreClean(items[1..]);
      var vs, rest := JsonGrammar.ItemsMean(items), JsonGrammar.ItemsMean(items[1..]);
      forall i | 0 <= i < |vs| ensures CleanNumbers(vs[i]) { assert i > 0 ==> vs[i] == rest[i - 1]; }
    }
  }

  lemma {:induction false} EntriesAreClean(entries: seq<JsonGrammar.Entry>)
    requires forall i :: 0 <= i < |entries| ==> JsonGrammar.IsEntry(entries[i])
    ensures var ms := JsonGrammar.EntriesMean(entries); forall i :: 0 <= i < |ms| ==> CleanNumbers(ms[i].val)
    decreases entries, 0
  {
    hide CleanNumbers;
    if entries != [] {
      JsonGrammar.EntriesMeanFirst(entries);
      DocIsClean(entries[0].item.value);
      EntriesAreClean(entries[1..]);
      var ms, rest := JsonGrammar.EntriesMean(entries), JsonGrammar.EntriesMean(entries[1..]);
      forall i | 0 <= i < |ms| ensures CleanNumbers(ms[i].val) { assert i > 0 ==> ms[i] == rest[i - 1]; }
    }
  }

  /** A context that was read from a JSON text brings no markup into escaped output, whatever the text was. */
  lemma ParsedOutputIsSafe(lib: Library, names: set<Text>, c: Code, t: Text, limit: nat)
    requires Sound(c) && Escaping(c, names) && PartialsEscape(lib, names) && Terminated(t) && Parse(t).Some?
    ensures var o := Rendered(lib, c, Parse(t).value, limit); o.Ended? ==> NoMarkUp(o.out)
  {
    hide Parse;
    hide CleanNumbers;
    hide Runs;
    hide Escaping;
    hide PartialsEscape;
    hide JsonGrammar.IsDoc;
    hide JsonGrammar.Means;
    var _, d, _ := JsonGrammar.ParsedTextWasWritten(t);
    DocIsClean(d);
    EscapedOutputIsSafe(lib, names, c, Parse(t).value, limit);
  }
}
