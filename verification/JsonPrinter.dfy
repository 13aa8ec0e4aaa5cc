/** Printing by appending to a string, as the source does it. */
module JsonPrinter {
  import opened Common
  import opened JsonSpec

  method EscapeText(s: Text, ret: Text) returns (r: Text)
    ensures r == ret + Escape(s)
  {
    hide EscapeByte;
    hide Escape;
    r := ret;
    var i := 0;
    EscapeFrom(s, 0);
    while i < |s|
      invariant 0 <= i <= |s| && r + Escape(s[i..]) == ret + Escape(s)
    {
      EscapeFrom(s, i);
      ghost var before := r;
      r := r + EscapeByte(s[i]);
      assert before + (EscapeByte(s[i]) + Escape(s[i + 1..])) == r + Escape(s[i + 1..]);
      i := i + 1;
    }
    EscapeFrom(s, i);
  }

  lemma EscapeFrom(s: Text, i: nat)
    requires i <= |s|
    ensures i == 0 ==> Escape(s[i..]) == Escape(s)
    ensures i < |s| ==> Escape(s[i..]) == EscapeByte(s[i]) + Escape(s[i + 1..])
    ensures i == |s| ==> Escape(s[i..]) == []
  {
    hide EscapeByte;
    if i == 0 { assert s[i..] == s; }
    if i < |s| { assert s[i..][1..] == s[i + 1..]; }
  }

  method DumpStringTo(s: Text, out: Text) returns (r: Text)
    ensures r == out + DumpString(s)
  {
    hide Escape;
    r := EscapeText(s, out + ['"']);
    r := r + ['"'];
  }

  /** `dump_internal`: appends the printed value. */
  method DumpTo(v: Json, out: Text) returns (r: Text)
    requires Plain(v)
    ensures r == out + Dump(v)
    decreases v, 1
  {
    hide DumpString;
    hide DumpItems;
    hide DumpMembers;
    match v
    case JNull => r := out + ['n', 'u', 'l', 'l'];
    case JFalse => r := out + ['f', 'a', 'l', 's', 'e'];
    case JTrue => r := out + ['t', 'r', 'u', 'e'];
    case JString(s) => r := DumpStringTo(s, out);
    case JList(items) =>
      r := DumpItemsTo(items, out + ['[']);
      r := r + [']'];
    case JObject(members) =>
      r := DumpMembersTo(members, out + ['{']);
      r := r + ['}'];
  }

  /** The loop over the items: a comma before each but the first. */
  method DumpItemsTo(items: seq<Json>, out: Text) returns (r: Text)
    requires forall i :: 0 <= i < |items| ==> Plain(items[i])
    ensures r == out + DumpItems(items)
    decreases items, 0
  {
    hide Dump;
    hide DumpItems;
    hide Plain;
    r := out;
    var first, i := true, 0;
    NoItems();
    while i < |items|
      invariant 0 <= i <= |items| && first == (i == 0) && r == out + DumpItems(items[..i])
    {
      ItemsText(items, i);
      if !first {
        r := r + [','];
      }
      first := false;
      r := DumpTo(items[i], r);
      i := i + 1;
    }
    assert items[..i] == items;
  }

  lemma {:induction false} ItemsText(items: seq<Json>, i: nat)
    requires i < |items| && forall j :: 0 <= j < |items| ==> Plain(items[j])
    ensures DumpItems(items[..i + 1]) == DumpItems(items[..i]) + (if i == 0 then [] else [',']) + Dump(items[i])
    decreases i
  {
    hide Dump;
    hide Plain;
    var all := items[..i + 1];
    if i == 0 {
      assert all == [items[0]];
    } else {
      var rest := items[1..];
      ItemsText(rest, i - 1);
      assert all[1..] == rest[..i] && items[..i][1..] == rest[..i - 1];
    }
  }

  method DumpMembersTo(members: seq<Member>, out: Text) returns (r: Text)
    requires forall i :: 0 <= i < |members| ==> Plain(members[i].val)
    ensures r == out + DumpMembers(members)
    decreases members, 0
  {
    hide Dump;
    hide DumpMembers;
    hide DumpString;
    hide Plain;
    r := out;
    var first, i := true, 0;
    NoItems();
    while i < |members|
      invariant 0 <= i <= |members| && first == (i == 0) && r == out + DumpMembers(members[..i])
    {
      MembersText(members, i);
      if !first {
        r := r + [','];
      }
      first := false;
      r := DumpMemberTo(members[i], r);
      i := i + 1;
    }
    assert members[..i] == members;
  }

  method DumpMemberTo(m: Member, out: Text) returns (r: Text)
    requires Plain(m.val)
    ensures r == out + (DumpString(m.key) + [':'] + Dump(m.val))
    decreases m, 2
  {
    hide Dump;
    hide DumpString;
    r := DumpStringTo(m.key, out);
    r := r + [':'];
    r := DumpTo(m.val, r);
  }

  lemma {:induction false} MembersText(members: seq<Member>, i: nat)
    requires i < |members| && forall j :: 0 <= j < |members| ==> Plain(members[j].val)
    ensures DumpMembers(members[..i + 1]) ==
            DumpMembers(members[..i]) + (if i == 0 then [] else [','])
            + (DumpString(members[i].key) + [':'] + Dump(members[i].val))
    decreases i
  {
    hide Dump;
    hide DumpString;
    hide Plain;
    var all := members[..i + 1];
    if i == 0 {
      assert all == [members[0]];
    } else {
      var rest := members[1..];
      MembersText(rest, i - 1);
      assert all[1..] == rest[..i] && members[..i][1..] == rest[..i - 1];
    }
  }
}
