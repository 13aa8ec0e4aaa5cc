/** Templates as nested blocks, their contexts, and what a tag prints. */
module MustacheModel {
  import opened Common
  import opened JsonSpec

  /** A template: texts with a part behind each of them but the last. */
  datatype Template = Last(text: Text) | More(text: Text, part: Part, rest: Template)

  datatype Part =
    | Comment(note: Text)
    | Value(name: Text, escaped: bool)
    | Section(name: Text, body: Template)
    | Inverted(name: Text, body: Template)
    | Include(name: Text, width: nat)

  // ----- contexts -----

  /** The parts of a dotted name. */
  function Split(name: Text): (r: seq<Text>)
    ensures |r| >= 1
  {
    if name == [] then [[]]
    else
      var rest := Split(name[1..]);
      if name[0] == '.' then [[]] + rest else [[name[0]] + rest[0]] + rest[1..]
  }

  function Dotted(names: seq<Text>): Text
    requires names != []
  {
    if |names| == 1 then names[0] else names[0] + ['.'] + Dotted(names[1..])
  }

  /** The parts hold no dot and give the name back when they are joined with dots. */
  lemma {:induction false} SplitMeans(name: Text)
    ensures Dotted(Split(name)) == name && forall i :: 0 <= i < |Split(name)| ==> '.' !in Split(name)[i]
  {
    if name != [] {
      SplitMeans(name[1..]);
      var rest, all := Split(name[1..]), Split(name);
      if name[0] == '.' {
        assert all[1..] == rest;
      } else {
        assert all[1..] == rest[1..];
        if |rest| > 1 {
          assert [name[0]] + (rest[0] + ['.'] + Dotted(rest[1..])) == all[0] + ['.'] + Dotted(all[1..]);
        }
      }
    }
  }

  function MemberOf(members: seq<Member>, name: Text): Option<Json> {
    if members == [] then None
    else if members[0].key == name then Some(members[0].val)
    else MemberOf(members[1..], name)
  }

  /** Follows the names from one object into the next. */
  function Path(view: Json, names: seq<Text>): Option<Json>
    decreases |names|
  {
    if names == [] then Some(view)
    else if !view.JObject? then None
    else
      match MemberOf(view.members, names[0])
      case None => None
      case Some(next) => Path(next, names[1..])
  }

  /** The innermost context that knows the whole path. */
  function Innermost(stack: seq<Json>, names: seq<Text>): Option<Json> {
    if stack == [] then None
    else
      match Path(stack[|stack| - 1], names)
      case Some(v) => Some(v)
      case None => Innermost(stack[..|stack| - 1], names)
  }

  /** The innermost context may be asked for only if there is one. */
  function Find(name: Text, stack: seq<Json>): Option<Json>
    requires stack != [] || name != ['.']
  {
    if name == ['.'] then Some(stack[|stack| - 1]) else Innermost(stack, Split(name))
  }

  // ----- output -----

  function HtmlByte(c: Byte): Text {
    if c == '&' then ['&', 'a', 'm', 'p', ';']
    else if c == '<' then ['&', 'l', 't', ';']
    else if c == '>' then ['&', 'g', 't', ';']
    else if c == '"' then ['&', 'q', 'u', 'o', 't', ';']
    else if c == '\'' then ['&', '#', '3', '9', ';']
    else if c == '/' then ['&', '#', 'x', '2', 'F', ';']
    else [c]
  }

  function Html(s: Text): Text {
    if s == [] then [] else Html(s[..|s| - 1]) + HtmlByte(s[|s| - 1])
  }

  predicate MarkUp(c: Byte) { c == '<' || c == '>' || c == '"' || c == '\'' || c == '/' }

  /** Escaped text holds no markup. */
  lemma {:induction false} HtmlIsSafe(s: Text)
    ensures forall i :: 0 <= i < |Html(s)| ==> !MarkUp(Html(s)[i])
  {
    if s != [] {
      HtmlIsSafe(s[..|s| - 1]);
      var last := HtmlByte(s[|s| - 1]);
      assert forall i :: 0 <= i < |last| ==> !MarkUp(last[i]);
    }
  }

  /** What a tag prints; None where the renderer throws. A name that is not found prints nothing. */
  function Printed(found: Option<Json>, escaped: bool): Option<Text> {
    match found
    case None => Some([])
    case Some(JNumber(text)) => Some(text)
    case Some(JString(s)) => Some(if escaped then Html(s) else s)
    case _ => None
  }

  function Blanks(n: nat): Text { seq(n, _ => ' ') }

  /** A text behind whose line ends blanks are inserted, but not at the very end of a template. */
  function Indented(text: Text, n: nat, final: bool): Text {
    if text == [] then []
    else
      var last := |text| - 1;
      Indented(text[..last], n, false) + [text[last]] + if text[last] == '\n' && !final then Blanks(n) else []
  }

  function Shown(text: Text, n: nat, final: bool): Text { if n == 0 then text else Indented(text, n, final) }

  predicate Falsy(found: Option<Json>) {
    match found
    case None => true
    case Some(JFalse) => true
    case Some(JNull) => true
    case Some(JList(items)) => items == []
    case _ => false
  }
}
