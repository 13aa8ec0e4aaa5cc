/** The method name: the parser's method is the text that was read. */
module HttpMethods {
  import opened Common
  import opened HttpModel
  import opened HttpBytes
  import opened HttpTrace
  import opened HttpMachine

  /** One pass in the method state. */
  lemma MethodPass(p: Parser, tr: Trace, c: Byte)
    requires p.errno == OK && (p.state == ReqMethod || (p.state == StartReq && c != '\r' && c != '\n'))
    ensures var t := MethodTurn(p, c);
            Passes(p, tr, c) == Run(t.p, Noted(tr, t.note), t.next) && (t.next == Break || t.next == Fail)
  {
    hide SwitchMethod;
    hide Name;
    hide Add;
  }

  /** The letters read so far are a prefix of the current method's name, or the whole name followed by a blank. */
  lemma MethodTurnReads(p: Parser, c: Byte, read: seq<Byte>)
    requires p.errno == OK && p.state == ReqMethod && p.index <= |Name(p.mtd)| && read == Name(p.mtd)[..p.index]
    ensures var t := MethodTurn(p, c);
            t.next == Fail
            || (t.p.state == ReqMethod && c != ' ' && t.p.index <= |Name(t.p.mtd)| && read + [c] == Name(t.p.mtd)[..t.p.index])
            || (t.p.state == SpacesBeforeUrl && c == ' ' && read == Name(t.p.mtd))
  {
    hide SwitchMethod;
    hide Name;
    NoBlankInNames(p.mtd, p.index);
    if SwitchMethod(p.mtd, p.index, c).Some? {
      var m := SwitchMethod(p.mtd, p.index, c).value;
      SwitchedNameMatches(p.mtd, p.index, c);
      NoBlankInNames(m, p.index);
      assert read + [c] == Name(m)[..p.index + 1];
    }
    if p.index < |Name(p.mtd)| { assert read + [Name(p.mtd)[p.index]] == Name(p.mtd)[..p.index + 1]; }
  }

  predicate IsEarly(m: Method) {
    match m
    case DELETE | GET | HEAD | POST | PUT | CONNECT | OPTIONS | TRACE | COPY | LOCK | MKCOL | MOVE | PROPFIND => true
    case _ => false
  }

  lemma NoBlankInEarly(m: Method, i: nat)
    requires IsEarly(m)
    ensures i < |Name(m)| ==> Name(m)[i] != ' ' && Name(m)[i] != '\0'
  {}

  lemma NoBlankInLate(m: Method, i: nat)
    requires !IsEarly(m)
    ensures i < |Name(m)| ==> Name(m)[i] != ' ' && Name(m)[i] != '\0'
  {}

  lemma NoBlankInNames(m: Method, i: nat)
    ensures i < |Name(m)| ==> Name(m)[i] != ' ' && Name(m)[i] != '\0'
  {
    hide Name;
    hide IsEarly;
    if IsEarly(m) { NoBlankInEarly(m, i); } else { NoBlankInLate(m, i); }
  }

  lemma MethodTurnErrno(p: Parser, c: Byte)
    requires p.errno == OK
    ensures MethodTurn(p, c).p.errno == OK <==> MethodTurn(p, c).next != Fail
  {
    hide SwitchMethod;
    hide Name;
  }

  lemma MethodByte(p: Parser, tr: Trace, c: Byte, read: seq<Byte>)
    requires p.errno == OK && Inv(p, 0) && p.state == ReqMethod && p.index <= |Name(p.mtd)| && read == Name(p.mtd)[..p.index]
    ensures var q := OneByte(p, tr, c).p;
            q.errno == OK ==>
              || (q.state == ReqMethod && c != ' ' && q.index <= |Name(q.mtd)| && read + [c] == Name(q.mtd)[..q.index])
              || (q.state == SpacesBeforeUrl && c == ' ' && read == Name(q.mtd))
  {
    hide Inv;
    hide Name;
    hide MethodTurn;
    hide Passes;
    CountedInv(p);
    var q := Counted(p);
    if q.errno == OK {
      MethodPass(q, tr, c);
      MethodTurnErrno(q, c);
      MethodTurnReads(q, c, read);
    }
  }

  /** Whatever is read in the method state without a blank is the start of the current method's name. */
  lemma {:induction false} MethodRun(p: Parser, tr: Trace, read: seq<Byte>, word: seq<Byte>)
    requires p.errno == OK && Inv(p, 0) && p.state == ReqMethod && p.index <= |Name(p.mtd)| && read == Name(p.mtd)[..p.index]
    requires ' ' !in word
    ensures var q := Feed(p, tr, word).p;
            q.errno == OK ==> q.state == ReqMethod && q.index <= |Name(q.mtd)| && read + word == Name(q.mtd)[..q.index]
    decreases |word|
  {
    hide Name;
    hide Inv;
    hide OneByte;
    if word == [] {
      assert read + word == read;
    } else {
      var c := word[0];
      OneByteInv(p, tr, c);
      MethodByte(p, tr, c, read);
      var r := OneByte(p, tr, c);
      if r.p.errno == OK {
        MethodRun(r.p, r.tr, read + [c], word[1..]);
        assert read + word == read + [c] + word[1..];
      }
    }
  }

  /** A word and a blank that the parser accepts after a message start is the name of the method it stores. */
  lemma AcceptedMethodIsItsName(p: Parser, tr: Trace, word: seq<Byte>)
    requires p.errno == OK && Inv(p, 0) && p.state == StartReq && word != [] && ' ' !in word
    requires word[0] != '\r' && word[0] != '\n'
    ensures var q := Feed(p, tr, word + [' ']).p;
            q.errno == OK ==> q.state == SpacesBeforeUrl && word == Name(q.mtd)
  {
    hide Inv;
    hide Name;
    FeedSplit(p, tr, word, [' ']);
    FeedSplit(p, tr, [word[0]], word[1..]);
    assert [word[0]] + word[1..] == word;
    FirstLetter(p, tr, word[0]);
    var f1 := Feed(p, tr, [word[0]]);
    if f1.p.errno == OK {
      MethodRun(f1.p, f1.tr, [word[0]], word[1..]);
      var f := Feed(p, tr, word);
      if f.p.errno == OK { BlankEndsMethod(f.p, f.tr, word); }
    }
  }

  lemma FirstLetter(p: Parser, tr: Trace, c: Byte)
    requires p.errno == OK && Inv(p, 0) && p.state == StartReq && c != '\r' && c != '\n'
    ensures var q := Feed(p, tr, [c]).p;
            q.errno == OK ==> q.state == ReqMethod && Inv(q, 0) && q.index <= |Name(q.mtd)| && [c] == Name(q.mtd)[..q.index]
  {
    hide Inv;
    CountedInv(p);
    OneByteInv(p, tr, c);
    var q := Counted(p);
    assert Feed(p, tr, [c]) == Fed(OneByte(p, tr, c).p, OneByte(p, tr, c).tr);
    if q.errno == OK {
      MethodPass(q, tr, c);
      FirstMethodName(c);
    }
  }

  lemma FirstMethodName(c: Byte)
    ensures FirstMethod(c).Some? ==> var n := Name(FirstMethod(c).value); |n| >= 1 && n[0] == c
  {}

  lemma BlankEndsMethod(p: Parser, tr: Trace, read: seq<Byte>)
    requires p.errno == OK && Inv(p, 0) && p.state == ReqMethod && p.index <= |Name(p.mtd)| && read == Name(p.mtd)[..p.index]
    ensures var q := Feed(p, tr, [' ']).p; q.errno == OK ==> q.state == SpacesBeforeUrl && read == Name(q.mtd)
  {
    hide Inv;
    hide Name;
    hide OneByte;
    OneByteInv(p, tr, ' ');
    MethodByte(p, tr, ' ', read);
    var r := OneByte(p, tr, ' ');
    assert Feed(p, tr, [' ']) == Feed(r.p, r.tr, []);
  }

  /** The method the parser holds after the first `i` letters of the name of `m`. */
  function Guess(m: Method, i: nat): Method {
    match m
    case CHECKOUT => if i < 2 then CONNECT else m
    case COPY => if i < 3 then CONNECT else m
    case MOVE | MERGE | MSEARCH => if i < 2 then MKCOL else m
    case MKACTIVITY => if i < 3 then MKCOL else m
    case MKCALENDAR => if i < 4 then MKCOL else m
    case SEARCH => if i < 2 then SUBSCRIBE else m
    case PROPFIND | PUT | PATCH => if i < 2 then POST else m
    case PURGE => if i < 2 then POST else if i < 3 then PUT else m
    case PROPPATCH => if i < 2 then POST else if i < 5 then PROPFIND else m
    case UNSUBSCRIBE => if i < 3 then UNLOCK else m
    case _ => m
  }

  lemma GuessStarts(m: Method)
    ensures var c := Name(m)[0]; c as int < 256 && FirstMethod(c) == Some(Guess(m, 1)) && IsAlpha(c) && c != '\r' && c != '\n'
  {
    match m case DELETE => case GET => case HEAD => case POST => case PUT => case CONNECT => case OPTIONS => case TRACE =>
    case COPY => case LOCK => case MKCOL => case MOVE => case PROPFIND => case PROPPATCH => case SEARCH => case UNLOCK =>
    case REPORT => case MKACTIVITY => case CHECKOUT => case MERGE => case MSEARCH => case NOTIFY => case SUBSCRIBE =>
    case UNSUBSCRIBE => case PATCH => case PURGE => case MKCALENDAR =>
  }

  /** The next letter of the name either fits the current guess or switches to the next one. */
  ghost predicate GuessGoesOn(m: Method, i: nat)
    requires i < |Name(m)|
  {
    var c := Name(m)[i];
    c as int < 256 && c != ' ' && c != '\0'
    && (if c == CharAt(Name(Guess(m, i)), i) then Guess(m, i + 1) == Guess(m, i)
        else SwitchMethod(Guess(m, i), i, c) == Some(Guess(m, i + 1)))
  }

  lemma GuessRight(m: Method, i: nat)
    requires 1 <= i < |Name(m)| && Guess(m, i) == m && Guess(m, i + 1) == m
    ensures GuessGoesOn(m, i)
  {
    NoBlankInNames(m, i);
    NamesAreAscii(m, i);
    hide Name;
  }

  lemma NamesAreAscii(m: Method, i: nat)
    requires i < |Name(m)|
    ensures Name(m)[i] <= 'Z'
  {}

  /** While the guess is not yet the right method, the names agree or the switch table corrects it. */
  lemma GuessWrong(m: Method, i: nat)
    requires 1 <= i < |Name(m)| && Guess(m, i) != m
    ensures GuessGoesOn(m, i)
  {
    match m {
      case CHECKOUT | MOVE | MERGE | MSEARCH | SEARCH | PROPFIND | PUT | PATCH => assert i == 1;
      case COPY | MKACTIVITY | UNSUBSCRIBE | PURGE => assert i == 1 || i == 2;
      case MKCALENDAR => assert i == 1 || i == 2 || i == 3;
      case PROPPATCH => assert i == 1 || i == 2 || i == 3 || i == 4;
    }
  }

  lemma GuessStays(m: Method, i: nat)
    ensures Guess(m, i) == m ==> Guess(m, i + 1) == m
    ensures Guess(m, 11) == m && (i >= |Name(m)| ==> Guess(m, i) == m)
  {
    NamesAreShort(m);
  }

  /** Letter `i` of the name of `m`, read in the state that letters before it led to. */
  lemma GuessByte(p: Parser, tr: Trace, m: Method, i: nat)
    requires p.errno == OK && Inv(p, 0) && p.state == ReqMethod && p.nread < MAX_HEADER_SIZE
    requires 1 <= i < |Name(m)| && p.index == i && p.mtd == Guess(m, i)
    ensures var q := OneByte(p, tr, Name(m)[i]).p;
            q.errno == OK && q.state == ReqMethod && q.index == i + 1 && q.mtd == Guess(m, i + 1) && q.nread == p.nread + 1
  {
    hide Inv;
    hide Name;
    hide SwitchMethod;
    hide Guess;
    hide Passes;
    CountedInv(p);
    MethodPass(Counted(p), tr, Name(m)[i]);
    GuessStays(m, i);
    if Guess(m, i) == m { GuessRight(m, i); } else { GuessWrong(m, i); }
  }

  lemma {:induction false} GuessRun(p: Parser, tr: Trace, m: Method, i: nat)
    requires p.errno == OK && Inv(p, 0) && p.state == ReqMethod
    requires 1 <= i <= |Name(m)| && p.index == i && p.mtd == Guess(m, i) && p.nread + (|Name(m)| - i) <= MAX_HEADER_SIZE
    ensures var q := Feed(p, tr, Name(m)[i..]).p;
            q.errno == OK && q.state == ReqMethod && q.index == |Name(m)| && q.mtd == m && q.nread == p.nread + |Name(m)| - i
    decreases |Name(m)| - i
  {
    hide Inv;
    hide Name;
    hide Guess;
    hide OneByte;
    if i == |Name(m)| {
      GuessStays(m, i);
      assert Name(m)[i..] == [];
    } else {
      var c := Name(m)[i];
      GuessByte(p, tr, m, i);
      OneByteInv(p, tr, c);
      var r := OneByte(p, tr, c);
      GuessRun(r.p, r.tr, m, i + 1);
      assert Name(m)[i..][1..] == Name(m)[i + 1..] && Name(m)[i..][0] == c;
    }
  }

  lemma FirstGuess(p: Parser, tr: Trace, m: Method)
    requires p.errno == OK && Inv(p, 0) && p.state == StartReq && p.nread < MAX_HEADER_SIZE
    ensures |Name(m)| > 0
    ensures var q := OneByte(p, tr, Name(m)[0]).p;
            q.errno == OK && q.state == ReqMethod && q.index == 1 && q.mtd == Guess(m, 1) && q.nread == p.nread + 1
  {
    hide Inv;
    hide Guess;
    hide Passes;
    NamesAreShort(m);
    GuessStarts(m);
    hide Name;
    CountedInv(p);
    MethodPass(Counted(p), tr, Name(m)[0]);
  }

  lemma BlankAfterName(p: Parser, tr: Trace, m: Method)
    requires p.errno == OK && Inv(p, 0) && p.state == ReqMethod && p.nread < MAX_HEADER_SIZE && p.mtd == m && p.index == |Name(m)|
    ensures var q := Feed(p, tr, [' ']).p; q.errno == OK && q.state == SpacesBeforeUrl && q.mtd == m
  {
    hide Inv;
    hide Name;
    hide SwitchMethod;
    hide Passes;
    CountedInv(p);
    MethodPass(Counted(p), tr, ' ');
    OneByteInv(p, tr, ' ');
    var r := OneByte(p, tr, ' ');
    assert Feed(p, tr, [' ']) == Feed(r.p, r.tr, []);
  }

  /** Every method of the table is accepted under its name, whatever other method its first letters suggest. */
  lemma EveryMethodIsAccepted(p: Parser, tr: Trace, m: Method)
    requires p.errno == OK && Inv(p, 0) && p.state == StartReq && p.nread + |Name(m)| < MAX_HEADER_SIZE
    ensures var q := Feed(p, tr, Name(m) + [' ']).p; q.errno == OK && q.state == SpacesBeforeUrl && q.mtd == m
  {
    hide Inv;
    hide Name;
    hide Guess;
    hide OneByte;
    FirstGuess(p, tr, m);
    var c := Name(m)[0];
    OneByteInv(p, tr, c);
    var r := OneByte(p, tr, c);
    assert Feed(p, tr, Name(m)) == Feed(r.p, r.tr, Name(m)[1..]);
    GuessRun(r.p, r.tr, m, 1);
    FeedSplit(p, tr, Name(m), [' ']);
    var f := Feed(p, tr, Name(m));
    BlankAfterName(f.p, f.tr, m);
  }
}
