/** The regular-expression matcher of grep.c against a declarative meaning of patterns.
    Strings are the characters before the terminating NUL. */
module Grep {

  function At(s: string, i: nat): char { if i < |s| then s[i] else '\0' }

  /** What a pattern says, read from left to right. */
  datatype Item = One(c: char) | Star(c: char) | End

  ghost predicate Accepts(c: char, ch: char) { c == '.' || c == ch }

  ghost function Parse(re: string): seq<Item> {
    if re == [] then []
    else if At(re, 1) == '*' then [Star(re[0])] + Parse(re[2..])
    else if re == "$" then [End]
    else [One(re[0])] + Parse(re[1..])
  }

  /** The words that one item stands for. */
  ghost predicate Word(item: Item, w: string) {
    match item
    case One(c) => |w| == 1 && Accepts(c, w[0])
    case Star(c) => forall i | 0 <= i < |w| :: Accepts(c, w[i])
    case End => w == []
  }

  ghost function Concat(words: seq<string>): string {
    if words == [] then [] else words[0] + Concat(words[1..])
  }

  /** text starts with a word for each item in turn, and ends there if the pattern says so. */
  ghost predicate Splits(items: seq<Item>, text: string, words: seq<string>, rest: string) {
    && |words| == |items| && text == Concat(words) + rest
    && (forall i | 0 <= i < |items| :: Word(items[i], words[i]))
    && (End in items ==> rest == [])
  }

  ghost predicate Fits(items: seq<Item>, text: string) {
    exists words, rest :: Splits(items, text, words, rest)
  }

  lemma FitsNil(text: string)
    ensures Fits([], text)
  {
    assert Splits([], text, [], text);
  }

  /** The first item takes a word off the front, and the others fit what is left. */
  lemma FitsFirst(item: Item, items: seq<Item>, text: string, w: string)
    requires Word(item, w) && w <= text && Fits(items, text[|w|..]) && item != End
    ensures Fits([item] + items, text)
  {
    var words, rest :| Splits(items, text[|w|..], words, rest);
    var more := [w] + words;
    assert more[1..] == words;
    assert text == w + text[|w|..];
    assert Splits([item] + items, text, more, rest);
  }

  lemma FitsRest(item: Item, items: seq<Item>, text: string) returns (w: string)
    requires Fits([item] + items, text)
    ensures Word(item, w) && w <= text && Fits(items, text[|w|..])
  {
    var all := [item] + items;
    var words, rest :| Splits(all, text, words, rest);
    w := words[0];
    assert Word(all[0], w);
    var words' := words[1..];
    assert text == w + (Concat(words') + rest);
    assert text[|w|..] == Concat(words') + rest;
    forall i | 0 <= i < |items| ensures Word(items[i], words'[i]) {
      assert all[i + 1] == items[i];
    }
    assert Splits(items, text[|w|..], words', rest);
  }

  lemma FitsOne(c: char, items: seq<Item>, text: string)
    ensures Fits([One(c)] + items, text) <==> text != [] && Accepts(c, text[0]) && Fits(items, text[1..])
  {
    if Fits([One(c)] + items, text) {
      var w := FitsRest(One(c), items, text);
    }
    if text != [] && Accepts(c, text[0]) && Fits(items, text[1..]) {
      FitsFirst(One(c), items, text, text[..1]);
    }
  }

  /** The star may take any number of characters that c accepts. */
  lemma FitsStar(c: char, items: seq<Item>, text: string)
    ensures Fits([Star(c)] + items, text) <==> exists k :: 0 <= k <= |text| && Takes(c, items, text, k)
  {
    if Fits([Star(c)] + items, text) {
      var w := FitsRest(Star(c), items, text);
      assert Takes(c, items, text, |w|);
    }
    if k :| 0 <= k <= |text| && Takes(c, items, text, k) {
      FitsFirst(Star(c), items, text, text[..k]);
    }
  }

  ghost predicate Takes(c: char, items: seq<Item>, text: string, k: nat) {
    k <= |text| && (forall j | 0 <= j < k :: Accepts(c, text[j])) && Fits(items, text[k..])
  }

  lemma FitsEnd(text: string)
    ensures Fits([End], text) <==> text == []
  {
    if Fits([End], text) {
      var words, rest :| Splits([End], text, words, rest);
      assert words == [words[0]] && words[0] == [];
      assert Concat(words) == [];
    }
    if text == [] { assert Splits([End], [], [[]], []); }
  }

  // ------------------------------------------------------ what a pattern says

  /** The characters that write a list of items. */
  ghost function Spell(items: seq<Item>): string {
    if items == [] then []
    else
      (match items[0]
       case One(c) => [c]
       case Star(c) => [c, '*']
       case End => "$") + Spell(items[1..])
  }

  /** Items as a pattern can write them: a star belongs to the character before it, and a last
      dollar is the end of the text. */
  ghost predicate Readable(items: seq<Item>) {
    items == [] ||
    var rest := items[1..];
    match items[0]
    case One(c) => At(Spell(rest), 0) != '*' && !(c == '$' && rest == []) && Readable(rest)
    case Star(_) => Readable(rest)
    case End => rest == []
  }

  /** A pattern says the one readable list of items that it spells. */
  lemma {:induction false} ParseIff(re: string, items: seq<Item>)
    requires '\0' !in re
    ensures Parse(re) == items <==> Spell(items) == re && Readable(items)
    decreases |re|
  {
    if re == [] {
      if items != [] { assert Spell(items) != []; }
    } else if items != [] {
      var rest := items[1..];
      assert items == [items[0]] + rest;
      if At(re, 1) == '*' {
        ParseIff(re[2..], rest);
        assert re == [re[0], '*'] + re[2..];
        StarFirst(re, items);
      } else {
        ParseIff(re[1..], rest);
        assert re == [re[0]] + re[1..];
        OneFirst(re, items);
      }
    }
  }

  lemma StarFirst(re: string, items: seq<Item>)
    requires |re| >= 2 && re[1] == '*' && items != []
    ensures Spell(items) == re && Readable(items) <==>
            items[0] == Star(re[0]) && Spell(items[1..]) == re[2..] && Readable(items[1..])
  {
    var rest := items[1..];
    match items[0] {
      case One(_) => assert Spell(items)[1..] == Spell(rest);
      case Star(_) => assert Spell(items)[2..] == Spell(rest);
      case End => assert Spell(items) == "$" + Spell(rest);
    }
    if items[0] == Star(re[0]) && Spell(rest) == re[2..] { assert [re[0], '*'] + re[2..] == re; }
  }

  lemma OneFirst(re: string, items: seq<Item>)
    requires re != [] && At(re, 1) != '*' && items != []
    ensures Spell(items) == re && Readable(items) <==>
            if re == "$" then items == [End]
            else items[0] == One(re[0]) && Spell(items[1..]) == re[1..] && Readable(items[1..])
  {
    var rest := items[1..];
    if items[0].Star? {
      assert Spell(items)[1] == '*';
    } else if items[0].One? {
      assert Spell(items)[1..] == Spell(rest);
      if rest != [] { assert Spell(rest) != []; }
      if Spell(rest) == re[1..] && items[0] == One(re[0]) { assert [re[0]] + re[1..] == re; }
    } else {
      assert Readable(items) ==> items == [End];
      assert Spell([End]) == "$" + Spell([]);
    }
  }

  ghost predicate Plain(re: string) {
    forall i | 0 <= i < |re| :: re[i] != '.' && re[i] != '*' && re[i] != '$'
  }

  /** A pattern without special characters fits where it stands in the text. */
  lemma {:induction false} FitsLiteral(re: string, text: string)
    requires Plain(re)
    ensures Fits(Parse(re), text) <==> re <= text
    decreases |re|
  {
    if re == [] {
      FitsNil(text);
    } else {
      FitsOne(re[0], Parse(re[1..]), text);
      assert re == [re[0]] + re[1..];
      if text != [] {
        FitsLiteral(re[1..], text[1..]);
        assert text == [text[0]] + text[1..];
      }
    }
  }

  /** With a dollar after it, it fits where it ends the text. */
  lemma {:induction false} FitsLiteralEnd(re: string, text: string)
    requires Plain(re)
    ensures Fits(Parse(re + "$"), text) <==> text == re
    decreases |re|
  {
    var all := re + "$";
    if re == [] {
      assert all == "$";
      FitsEnd(text);
    } else {
      assert all[1..] == re[1..] + "$";
      FitsOne(re[0], Parse(all[1..]), text);
      assert re == [re[0]] + re[1..];
      if text != [] {
        FitsLiteralEnd(re[1..], text[1..]);
        assert text == [text[0]] + text[1..];
      }
    }
  }

  /** grep for a plain string finds the lines it occurs in, and with a dollar those it ends. */
  lemma MatchLiteral(re: string, text: string)
    requires Plain(re)
    ensures (exists k :: 0 <= k <= |text| && Fits(Parse(re), text[k..]))
            <==> exists k :: 0 <= k <= |text| && re <= text[k..]
    ensures (exists k :: 0 <= k <= |text| && Fits(Parse(re + "$"), text[k..]))
            <==> exists k :: 0 <= k <= |text| && text[k..] == re
  {
    hide Parse;
    hide Fits;
    forall k | 0 <= k <= |text|
      ensures Fits(Parse(re), text[k..]) <==> re <= text[k..]
      ensures Fits(Parse(re + "$"), text[k..]) <==> text[k..] == re
    {
      FitsLiteral(re, text[k..]);
      FitsLiteralEnd(re, text[k..]);
    }
  }

  /** matchhere(): the pattern fits at the start of the text. */
  method MatchHere(re: string, text: string) returns (r: bool)
    requires '\0' !in re && '\0' !in text
    ensures r <==> Fits(Parse(re), text)
    decreases |re|, 0
  {
    if At(re, 0) == '\0' {
      FitsNil(text);
      return true;
    }
    if At(re, 1) == '*' {
      r := MatchStar(re[0], re[2..], text);
      return;
    }
    if At(re, 0) == '$' && At(re, 1) == '\0' {
      assert re == "$";
      FitsEnd(text);
      return At(text, 0) == '\0';
    }
    FitsOne(re[0], Parse(re[1..]), text);
    if At(text, 0) != '\0' && (re[0] == '.' || re[0] == text[0]) {
      r := MatchHere(re[1..], text[1..]);
      return;
    }
    return false;
  }

  /** matchstar(): c* and then the pattern fit at the start of the text. */
  method MatchStar(c: char, re: string, text: string) returns (r: bool)
    requires '\0' !in re && '\0' !in text
    ensures r <==> Fits([Star(c)] + Parse(re), text)
    decreases |re|, 1
  {
    FitsStar(c, Parse(re), text);
    var k := 0;
    while true
      invariant 0 <= k <= |text|
      invariant forall j | 0 <= j < k :: Accepts(c, text[j]) && !Fits(Parse(re), text[j..])
      decreases |text| - k
    {
      var here := MatchHere(re, text[k..]);
      if here {
        assert Takes(c, Parse(re), text, k);
        return true;
      }
      if At(text, k) == '\0' || !(text[k] == c || c == '.') {
        return false;
      }
      k := k + 1;
    }
  }

  /** match(): the pattern fits somewhere in the text, or at its start if it begins with ^. */
  method Match(re: string, text: string) returns (r: bool)
    requires '\0' !in re && '\0' !in text
    ensures r <==> if At(re, 0) == '^' then Fits(Parse(re[1..]), text)
                   else exists k :: 0 <= k <= |text| && Fits(Parse(re), text[k..])
  {
    hide Parse;
    hide Fits;
    if At(re, 0) == '^' {
      r := MatchHere(re[1..], text);
      return;
    }
    var k := 0;
    while true
      invariant 0 <= k <= |text|
      invariant forall j | 0 <= j < k :: !Fits(Parse(re), text[j..])
      decreases |text| - k
    {
      var here := MatchHere(re, text[k..]);
      if here {
        return true;
      }
      if At(text, k) == '\0' {
        return false;
      }
      k := k + 1;
    }
  }
}
