/** The values the in-place parser builds: positions into its own buffer. */
module JsonInPlaceValues {
  import opened Common
  import opened JsonSpec

  datatype RValue =
    | RNull | RFalse | RTrue
    | RNumber(s: nat, e: nat)
    | RString(s: nat, e: nat)
    | RList(items: seq<RValue>)
    | RObject(members: seq<RMember>)

  datatype RMember = RMember(ks: nat, ke: nat, val: RValue)

  /** A string's text: as it stands when the byte before it is 0, and otherwise still to be unescaped. */
  function StringView(b: Text, s: nat, e: nat): Text {
    if !(1 <= s <= e <= |b|) then []
    else if b[s - 1] == '\0' then b[s..e]
    else if WellEscaped(b[s..e]) then Unescape(b[s..e])
    else []
  }

  function Slice(b: Text, s: nat, e: nat): Text { if s <= e <= |b| then b[s..e] else [] }

  /** The value a buffer holds for a parsed value. */
  function View(b: Text, v: RValue): Json
    decreases v, 1
  {
    match v
    case RNull => JNull
    case RFalse => JFalse
    case RTrue => JTrue
    case RNumber(s, e) => JNumber(Slice(b, s, e))
    case RString(s, e) => JString(StringView(b, s, e))
    case RList(items) => JList(ViewItems(b, items))
    case RObject(members) => JObject(ViewMembers(b, members))
  }

  function ViewItems(b: Text, items: seq<RValue>): (r: seq<Json>)
    decreases items, 0
  {
    if items == [] then [] else ViewItems(b, items[..|items| - 1]) + [View(b, items[|items| - 1])]
  }

  function ViewMembers(b: Text, members: seq<RMember>): (r: seq<Member>)
    decreases members, 0
  {
    if members == [] then []
    else ViewMembers(b, members[..|members| - 1]) + [ViewMember(b, members[|members| - 1])]
  }

  function ViewMember(b: Text, m: RMember): Member
    decreases m, 2
  {
    Member(StringView(b, m.ks, m.ke), View(b, m.val))
  }

  /** A string of the buffer is unescaped already, or can be. */
  predicate Readable(b: Text, s: nat, e: nat) {
    1 <= s <= e <= |b| && (b[s - 1] != '\0' ==> WellEscaped(b[s..e]))
  }

  /**
   * The parts of the value stand in `lo..hi` in order and without overlap, each string with the flag
   * byte before it and the byte behind it, and every string can be read.
   */
  ghost predicate Held(b: Text, v: RValue, lo: nat, hi: nat)
    decreases v, 1
  {
    match v
    case RNumber(s, e) => lo <= s <= e <= hi
    case RString(s, e) => lo < s <= e < hi && Readable(b, s, e)
    case RList(items) => HeldItems(b, items, lo, hi)
    case RObject(members) => HeldMembers(b, members, lo, hi)
    case _ => lo <= hi
  }

  ghost predicate HeldItems(b: Text, items: seq<RValue>, lo: nat, hi: nat)
    decreases items, 0
  {
    if items == [] then lo <= hi
    else
      var front, last := items[..|items| - 1], items[|items| - 1];
      exists m: nat :: lo <= m <= hi && HeldItems(b, front, lo, m) && Held(b, last, m, hi)
  }

  ghost predicate HeldMembers(b: Text, members: seq<RMember>, lo: nat, hi: nat)
    decreases members, 0
  {
    if members == [] then lo <= hi
    else
      var front, last := members[..|members| - 1], members[|members| - 1];
      exists m: nat :: lo <= m <= hi && HeldMembers(b, front, lo, m) && HeldMember(b, last, m, hi)
  }

  ghost predicate HeldMember(b: Text, m: RMember, lo: nat, hi: nat)
    decreases m, 2
  {
    Readable(b, m.ks, m.ke) && lo < m.ks <= m.ke && exists mid: nat :: m.ke < mid <= hi && Held(b, m.val, mid, hi)
  }

  lemma {:induction false} HeldWider(b: Text, v: RValue, lo: nat, hi: nat, lo': nat, hi': nat)
    requires Held(b, v, lo, hi) && lo' <= lo && hi <= hi'
    ensures Held(b, v, lo', hi')
    decreases v, 1
  {
    match v
    case RList(items) => HeldItemsWider(b, items, lo, hi, lo', hi');
    case RObject(members) => HeldMembersWider(b, members, lo, hi, lo', hi');
    case _ =>
  }

  lemma {:induction false} HeldItemsWider(b: Text, items: seq<RValue>, lo: nat, hi: nat, lo': nat, hi': nat)
    requires HeldItems(b, items, lo, hi) && lo' <= lo && hi <= hi'
    ensures HeldItems(b, items, lo', hi')
    decreases items, 0
  {
    if items != [] {
      var n := |items| - 1;
      var m: nat :| lo <= m <= hi && HeldItems(b, items[..n], lo, m) && Held(b, items[n], m, hi);
      HeldItemsWider(b, items[..n], lo, m, lo', m);
      HeldWider(b, items[n], m, hi, m, hi');
    }
  }

  lemma {:induction false} HeldMembersWider(b: Text, members: seq<RMember>, lo: nat, hi: nat, lo': nat, hi': nat)
    requires HeldMembers(b, members, lo, hi) && lo' <= lo && hi <= hi'
    ensures HeldMembers(b, members, lo', hi')
    decreases members, 0
  {
    if members != [] {
      var n := |members| - 1;
      var m: nat :| lo <= m <= hi && HeldMembers(b, members[..n], lo, m) && HeldMember(b, members[n], m, hi);
      HeldMembersWider(b, members[..n], lo, m, lo', m);
      HeldMemberWider(b, members[n], m, hi, m, hi');
    }
  }

  lemma {:induction false} HeldMemberWider(b: Text, m: RMember, lo: nat, hi: nat, lo': nat, hi': nat)
    requires HeldMember(b, m, lo, hi) && lo' <= lo && hi <= hi'
    ensures HeldMember(b, m, lo', hi')
    decreases m, 2
  {
    var mid: nat :| m.ke < mid <= hi && Held(b, m.val, mid, hi);
    HeldWider(b, m.val, mid, hi, mid, hi');
  }

  /** The two buffers agree between `lo` and `hi`. */
  ghost predicate SameBetween(b: Text, c: Text, lo: nat, hi: nat) {
    |b| == |c| && lo <= hi <= |b| && b[lo..hi] == c[lo..hi]
  }

  lemma SameSlice(b: Text, c: Text, lo: nat, hi: nat, s: nat, e: nat)
    requires SameBetween(b, c, lo, hi) && lo <= s <= e <= hi
    ensures SameBetween(b, c, s, e)
  {
    forall i | s <= i < e ensures b[i] == c[i] {
      assert b[i] == b[lo..hi][i - lo] && c[i] == c[lo..hi][i - lo];
    }
  }

  lemma SameString(b: Text, c: Text, lo: nat, hi: nat, s: nat, e: nat)
    requires SameBetween(b, c, lo, hi) && lo < s <= e < hi
    ensures StringView(b, s, e) == StringView(c, s, e) && (Readable(b, s, e) <==> Readable(c, s, e))
  {
    SameSlice(b, c, lo, hi, s, e);
    SameSlice(b, c, lo, hi, s - 1, s);
    assert b[s - 1] == b[s - 1..s][0] && c[s - 1] == c[s - 1..s][0];
  }

  /** Edits outside a value's place do not change it. */
  lemma {:induction false} ViewFrame(b: Text, c: Text, v: RValue, lo: nat, hi: nat)
    requires SameBetween(b, c, lo, hi) && Held(b, v, lo, hi)
    ensures View(b, v) == View(c, v) && Held(c, v, lo, hi)
    decreases v, 1
  {
    hide StringView;
    hide Readable;
    hide SameBetween;
    match v
    case RNumber(s, e) => SliceFrame(b, c, lo, hi, s, e);
    case RString(s, e) => SameString(b, c, lo, hi, s, e);
    case RList(items) => ViewItemsFrame(b, c, items, lo, hi);
    case RObject(members) => ViewMembersFrame(b, c, members, lo, hi);
    case _ =>
  }

  lemma SliceFrame(b: Text, c: Text, lo: nat, hi: nat, s: nat, e: nat)
    requires SameBetween(b, c, lo, hi) && lo <= s <= e <= hi
    ensures Slice(b, s, e) == Slice(c, s, e)
  {
    SameSlice(b, c, lo, hi, s, e);
  }

  lemma {:induction false} ViewItemsFrame(b: Text, c: Text, items: seq<RValue>, lo: nat, hi: nat)
    requires SameBetween(b, c, lo, hi) && HeldItems(b, items, lo, hi)
    ensures ViewItems(b, items) == ViewItems(c, items) && HeldItems(c, items, lo, hi)
    decreases items, 0
  {
    hide SameBetween;
    if items != [] {
      var n := |items| - 1;
      var m: nat :| lo <= m <= hi && HeldItems(b, items[..n], lo, m) && Held(b, items[n], m, hi);
      SameSlice(b, c, lo, hi, lo, m);
      SameSlice(b, c, lo, hi, m, hi);
      ViewItemsFrame(b, c, items[..n], lo, m);
      ViewFrame(b, c, items[n], m, hi);
    }
  }

  lemma {:induction false} ViewMembersFrame(b: Text, c: Text, members: seq<RMember>, lo: nat, hi: nat)
    requires SameBetween(b, c, lo, hi) && HeldMembers(b, members, lo, hi)
    ensures ViewMembers(b, members) == ViewMembers(c, members) && HeldMembers(c, members, lo, hi)
    decreases members, 0
  {
    hide SameBetween;
    if members != [] {
      var n := |members| - 1;
      var m: nat :| lo <= m <= hi && HeldMembers(b, members[..n], lo, m) && HeldMember(b, members[n], m, hi);
      SameSlice(b, c, lo, hi, lo, m);
      SameSlice(b, c, lo, hi, m, hi);
      ViewMembersFrame(b, c, members[..n], lo, m);
      ViewMemberFrame(b, c, members[n], m, hi);
    }
  }

  lemma {:induction false} ViewMemberFrame(b: Text, c: Text, m: RMember, lo: nat, hi: nat)
    requires SameBetween(b, c, lo, hi) && HeldMember(b, m, lo, hi)
    ensures ViewMember(b, m) == ViewMember(c, m) && HeldMember(c, m, lo, hi)
    decreases m, 2
  {
    hide SameBetween;
    hide StringView;
    hide Readable;
    var mid: nat :| m.ke < mid <= hi && Held(b, m.val, mid, hi);
    SameSlice(b, c, lo, hi, mid, hi);
    ViewFrame(b, c, m.val, mid, hi);
    SameSlice(b, c, lo, hi, lo, mid);
    SameString(b, c, lo, mid, m.ks, m.ke);
  }

  // ----- reading one string of a value -----

  /** The value holds a string at `s..e`. */
  predicate HasString(v: RValue, s: nat, e: nat)
    decreases v, 1
  {
    match v
    case RString(s', e') => s' == s && e' == e
    case RList(items) => ItemsHaveString(items, s, e)
    case RObject(members) => MembersHaveString(members, s, e)
    case _ => false
  }

  predicate ItemsHaveString(items: seq<RValue>, s: nat, e: nat)
    decreases items, 0
  {
    items != [] && (ItemsHaveString(items[..|items| - 1], s, e) || HasString(items[|items| - 1], s, e))
  }

  predicate MembersHaveString(members: seq<RMember>, s: nat, e: nat)
    decreases members, 0
  {
    members != [] &&
    (MembersHaveString(members[..|members| - 1], s, e) || MemberHasString(members[|members| - 1], s, e))
  }

  predicate MemberHasString(m: RMember, s: nat, e: nat)
    decreases m, 2
  {
    HasString(m.val, s, e)
  }

  /** The value once its string at `s` ends at `end`. */
  function Shortened(v: RValue, s: nat, end: nat): RValue
    decreases v, 1
  {
    match v
    case RString(s', e') => if s' == s then RString(s, end) else v
    case RList(items) => RList(ItemsShortened(items, s, end))
    case RObject(members) => RObject(MembersShortened(members, s, end))
    case _ => v
  }

  function ItemsShortened(items: seq<RValue>, s: nat, end: nat): seq<RValue>
    decreases items, 0
  {
    if items == [] then []
    else ItemsShortened(items[..|items| - 1], s, end) + [Shortened(items[|items| - 1], s, end)]
  }

  function MembersShortened(members: seq<RMember>, s: nat, end: nat): seq<RMember>
    decreases members, 0
  {
    if members == [] then []
    else MembersShortened(members[..|members| - 1], s, end) + [MemberShortened(members[|members| - 1], s, end)]
  }

  function MemberShortened(m: RMember, s: nat, end: nat): RMember
    decreases m, 2
  {
    RMember(m.ks, m.ke, Shortened(m.val, s, end))
  }

  /** A string of a value stands inside the value's place. */
  lemma {:induction false} StringPlace(b: Text, v: RValue, lo: nat, hi: nat, s: nat, e: nat)
    requires Held(b, v, lo, hi) && HasString(v, s, e)
    ensures lo < s <= e < hi && Readable(b, s, e)
    decreases v, 1
  {
    hide Readable;
    match v
    case RList(items) => ItemsStringPlace(b, items, lo, hi, s, e);
    case RObject(members) => MembersStringPlace(b, members, lo, hi, s, e);
    case _ =>
  }

  lemma {:induction false} ItemsStringPlace(b: Text, items: seq<RValue>, lo: nat, hi: nat, s: nat, e: nat)
    requires HeldItems(b, items, lo, hi) && ItemsHaveString(items, s, e)
    ensures lo < s <= e < hi && Readable(b, s, e)
    decreases items, 0
  {
    hide Readable;
    var n := |items| - 1;
    var m: nat :| lo <= m <= hi && HeldItems(b, items[..n], lo, m) && Held(b, items[n], m, hi);
    if HasString(items[n], s, e) {
      StringPlace(b, items[n], m, hi, s, e);
    } else {
      ItemsStringPlace(b, items[..n], lo, m, s, e);
    }
  }

  lemma {:induction false} MembersStringPlace(b: Text, members: seq<RMember>, lo: nat, hi: nat, s: nat, e: nat)
    requires HeldMembers(b, members, lo, hi) && MembersHaveString(members, s, e)
    ensures lo < s <= e < hi && Readable(b, s, e)
    decreases members, 0
  {
    hide Readable;
    var n := |members| - 1;
    var m: nat :| lo <= m <= hi && HeldMembers(b, members[..n], lo, m) && HeldMember(b, members[n], m, hi);
    if MemberHasString(members[n], s, e) {
      MemberStringPlace(b, members[n], m, hi, s, e);
    } else {
      MembersStringPlace(b, members[..n], lo, m, s, e);
    }
  }

  lemma {:induction false} MemberStringPlace(b: Text, m: RMember, lo: nat, hi: nat, s: nat, e: nat)
    requires HeldMember(b, m, lo, hi) && MemberHasString(m, s, e)
    ensures lo < s <= e < hi && Readable(b, s, e)
    decreases m, 2
  {
    hide Readable;
    var mid: nat :| m.ke < mid <= hi && Held(b, m.val, mid, hi);
    StringPlace(b, m.val, mid, hi, s, e);
  }

  /** A value elsewhere does not change. */
  lemma {:induction false} ShortenedElsewhere(b: Text, v: RValue, lo: nat, hi: nat, s: nat, end: nat)
    requires Held(b, v, lo, hi) && (s <= lo || hi <= s)
    ensures Shortened(v, s, end) == v
    decreases v, 1
  {
    hide Readable;
    match v
    case RList(items) => ItemsElsewhere(b, items, lo, hi, s, end);
    case RObject(members) => MembersElsewhere(b, members, lo, hi, s, end);
    case _ =>
  }

  lemma {:induction false} ItemsElsewhere(b: Text, items: seq<RValue>, lo: nat, hi: nat, s: nat, end: nat)
    requires HeldItems(b, items, lo, hi) && (s <= lo || hi <= s)
    ensures ItemsShortened(items, s, end) == items
    decreases items, 0
  {
    hide Readable;
    if items != [] {
      var n := |items| - 1;
      var m: nat :| lo <= m <= hi && HeldItems(b, items[..n], lo, m) && Held(b, items[n], m, hi);
      ItemsElsewhere(b, items[..n], lo, m, s, end);
      ShortenedElsewhere(b, items[n], m, hi, s, end);
    }
  }

  lemma {:induction false} MembersElsewhere(b: Text, members: seq<RMember>, lo: nat, hi: nat, s: nat, end: nat)
    requires HeldMembers(b, members, lo, hi) && (s <= lo || hi <= s)
    ensures MembersShortened(members, s, end) == members
    decreases members, 0
  {
    hide Readable;
    if members != [] {
      var n := |members| - 1;
      var m: nat :| lo <= m <= hi && HeldMembers(b, members[..n], lo, m) && HeldMember(b, members[n], m, hi);
      MembersElsewhere(b, members[..n], lo, m, s, end);
      MemberElsewhere(b, members[n], m, hi, s, end);
    }
  }

  /** The buffer `c` is `b` after its string at `s..e` was unescaped to `s..end`. */
  ghost predicate Reread(b: Text, c: Text, s: nat, e: nat, end: nat) {
    && |b| == |c| && 1 <= s <= end <= e < |b|
    && SameBetween(b, c, 0, s - 1) && SameBetween(b, c, e + 1, |b|)
    && StringView(b, s, e) == StringView(c, s, end) && Readable(c, s, end)
  }

  lemma RereadElsewhere(b: Text, c: Text, s: nat, e: nat, end: nat, lo: nat, hi: nat)
    requires Reread(b, c, s, e, end) && lo <= hi <= |b| && (hi < s || e < lo)
    ensures SameBetween(b, c, lo, hi)
  {
    hide StringView;
    hide Readable;
    if hi < s {
      SameSlice(b, c, 0, s - 1, lo, hi);
    } else {
      SameSlice(b, c, e + 1, |b|, lo, hi);
    }
  }

  /** Reading one string of a value leaves every string of it, read or unread, with the same text. */
  lemma {:induction false} ReadKeepsView(b: Text, c: Text, v: RValue, lo: nat, hi: nat, s: nat, e: nat, end: nat)
    requires Held(b, v, lo, hi) && hi <= |b| && HasString(v, s, e) && Reread(b, c, s, e, end)
    ensures View(c, Shortened(v, s, end)) == View(b, v) && Held(c, Shortened(v, s, end), lo, hi)
    decreases v, 1
  {
    hide SameBetween;
    hide StringView;
    hide Readable;
    match v
    case RList(items) => ReadKeepsItems(b, c, items, lo, hi, s, e, end);
    case RObject(members) => ReadKeepsMembers(b, c, members, lo, hi, s, e, end);
    case _ =>
  }

  lemma {:induction false} ReadKeepsItems(b: Text, c: Text, items: seq<RValue>, lo: nat, hi: nat, s: nat, e: nat, end: nat)
    requires HeldItems(b, items, lo, hi) && hi <= |b| && ItemsHaveString(items, s, e) && Reread(b, c, s, e, end)
    ensures ViewItems(c, ItemsShortened(items, s, end)) == ViewItems(b, items)
    ensures HeldItems(c, ItemsShortened(items, s, end), lo, hi)
    decreases items, 0
  {
    hide Reread;
    var n := |items| - 1;
    var front, last := items[..n], items[n];
    var m: nat :| lo <= m <= hi && HeldItems(b, front, lo, m) && Held(b, last, m, hi);
    if HasString(last, s, e) {
      StringPlace(b, last, m, hi, s, e);
      ItemsElsewhere(b, front, lo, m, s, end);
      RereadElsewhere(b, c, s, e, end, lo, m);
      ViewItemsFrame(b, c, front, lo, m);
      ReadKeepsView(b, c, last, m, hi, s, e, end);
    } else {
      ItemsStringPlace(b, front, lo, m, s, e);
      ReadKeepsItems(b, c, front, lo, m, s, e, end);
      ShortenedElsewhere(b, last, m, hi, s, end);
      RereadElsewhere(b, c, s, e, end, m, hi);
      ViewFrame(b, c, last, m, hi);
    }
    AppendItem(c, ItemsShortened(front, s, end), Shortened(last, s, end), lo, m, hi);
  }

  lemma AppendItem(b: Text, items: seq<RValue>, v: RValue, lo: nat, m: nat, hi: nat)
    requires HeldItems(b, items, lo, m) && Held(b, v, m, hi) && lo <= m <= hi
    ensures HeldItems(b, items + [v], lo, hi) && ViewItems(b, items + [v]) == ViewItems(b, items) + [View(b, v)]
  {
    hide Held;
    hide View;
    assert (items + [v])[..|items|] == items;
  }

  lemma AppendMember(b: Text, members: seq<RMember>, v: RMember, lo: nat, m: nat, hi: nat)
    requires HeldMembers(b, members, lo, m) && HeldMember(b, v, m, hi) && lo <= m <= hi
    ensures HeldMembers(b, members + [v], lo, hi)
    ensures ViewMembers(b, members + [v]) == ViewMembers(b, members) + [ViewMember(b, v)]
  {
    hide HeldMember;
    hide ViewMember;
    assert (members + [v])[..|members|] == members;
  }

  lemma {:induction false} ReadKeepsMembers(b: Text, c: Text, members: seq<RMember>, lo: nat, hi: nat, s: nat, e: nat, end: nat)
    requires HeldMembers(b, members, lo, hi) && hi <= |b| && MembersHaveString(members, s, e) && Reread(b, c, s, e, end)
    ensures ViewMembers(c, MembersShortened(members, s, end)) == ViewMembers(b, members)
    ensures HeldMembers(c, MembersShortened(members, s, end), lo, hi)
    decreases members, 0
  {
    hide Reread;
    var n := |members| - 1;
    var front, last := members[..n], members[n];
    var m: nat :| lo <= m <= hi && HeldMembers(b, front, lo, m) && HeldMember(b, last, m, hi);
    if MemberHasString(last, s, e) {
      ReadKeepsMember(b, c, last, m, hi, s, e, end);
      MembersElsewhere(b, front, lo, m, s, end);
      RereadElsewhere(b, c, s, e, end, lo, m);
      ViewMembersFrame(b, c, front, lo, m);
    } else {
      MembersStringPlace(b, front, lo, m, s, e);
      ReadKeepsMembers(b, c, front, lo, m, s, e, end);
      MemberElsewhere(b, last, m, hi, s, end);
      RereadElsewhere(b, c, s, e, end, m, hi);
      ViewMemberFrame(b, c, last, m, hi);
    }
    AppendMember(c, MembersShortened(front, s, end), MemberShortened(last, s, end), lo, m, hi);
  }

  lemma {:induction false} MemberElsewhere(b: Text, m: RMember, lo: nat, hi: nat, s: nat, end: nat)
    requires HeldMember(b, m, lo, hi) && (s <= lo || hi <= s)
    ensures MemberShortened(m, s, end) == m
    decreases m, 2
  {
    var mid: nat :| m.ke < mid <= hi && Held(b, m.val, mid, hi);
    ShortenedElsewhere(b, m.val, mid, hi, s, end);
  }

  lemma {:induction false} ReadKeepsMember(b: Text, c: Text, m: RMember, lo: nat, hi: nat, s: nat, e: nat, end: nat)
    requires HeldMember(b, m, lo, hi) && hi <= |b| && MemberHasString(m, s, e) && Reread(b, c, s, e, end)
    ensures ViewMember(c, MemberShortened(m, s, end)) == ViewMember(b, m) && HeldMember(c, MemberShortened(m, s, end), lo, hi)
    ensures lo < s <= e < hi
    decreases m, 2
  {
    hide Reread;
    hide StringView;
    hide Readable;
    var mid: nat :| m.ke < mid <= hi && Held(b, m.val, mid, hi);
    StringPlace(b, m.val, mid, hi, s, e);
    RereadElsewhere(b, c, s, e, end, lo, mid);
    SameString(b, c, lo, mid, m.ks, m.ke);
    ReadKeepsView(b, c, m.val, mid, hi, s, e, end);
  }
}
