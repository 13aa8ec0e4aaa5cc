/** The flat form: one action per tag, one text before each action and one at the end. */
module MustacheFlat {
  import opened Common
  import opened JsonSpec
  import opened MustacheModel

  /** The kinds of tags; a partial alone on its line knows by how much it is indented. */
  datatype Kind = Ignore | Tag | UnescapeTag | OpenBlock | CloseBlock | ElseBlock | Partial(width: nat)

  datatype Action = Action(kind: Kind, name: Text, pos: nat)

  /** A text and the tag behind it, as the scan of the body finds them. */
  datatype Piece = Piece(text: Text, kind: Kind, name: Text)

  function Size(t: Template): nat
    decreases t, 0
  {
    match t
    case Last(_) => 0
    case More(_, part, rest) => PartSize(part) + Size(rest)
  }

  function PartSize(part: Part): (n: nat)
    ensures n >= 1
    decreases part, 0
  {
    match part
    case Section(_, body) => Size(body) + 2
    case Inverted(_, body) => Size(body) + 2
    case _ => 1
  }

  /** The actions and texts from `i` on are those of the template, every block opener knowing its closing action. */
  predicate Lays(actions: seq<Action>, texts: seq<Text>, t: Template, i: nat)
    decreases t, 0
  {
    && i < |texts| && texts[i] == t.text
    && (t.More? ==> LaysPart(actions, texts, t.part, i) && Lays(actions, texts, t.rest, i + PartSize(t.part)))
  }

  predicate LaysPart(actions: seq<Action>, texts: seq<Text>, part: Part, i: nat)
    decreases part, 0
  {
    i < |actions| &&
    match part
    case Comment(_) => actions[i].kind == Ignore
    case Value(name, escaped) => actions[i].kind == (if escaped then Tag else UnescapeTag) && actions[i].name == name
    case Include(name, width) => actions[i].kind == Partial(width) && actions[i].name == name
    case Section(name, body) => Opens(actions, OpenBlock, name, i, i + 1 + Size(body)) && Lays(actions, texts, body, i + 1)
    case Inverted(name, body) => Opens(actions, ElseBlock, name, i, i + 1 + Size(body)) && Lays(actions, texts, body, i + 1)
  }

  /** A block's opener at `i` and its closing action at `j`. */
  predicate Opens(actions: seq<Action>, kind: Kind, name: Text, i: nat, j: nat) {
    i < j < |actions| && actions[i] == Action(kind, name, j) && actions[j] == Action(CloseBlock, name, i)
  }
}
