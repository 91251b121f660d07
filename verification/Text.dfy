/** The string functions of Go's library that the models need. */
module Text {
  import opened Prelude

  /** `unicode.IsSpace`. */
  predicate IsSpace(c: char) {
    || c as int in {0x09, 0x0a, 0x0b, 0x0c, 0x0d, 0x20, 0x85, 0xa0, 0x1680, 0x2028, 0x2029, 0x202f, 0x205f, 0x3000}
    || 0x2000 <= c as int <= 0x200a
  }

  predicate Blank(s: string) { forall k :: 0 <= k < |s| ==> IsSpace(s[k]) }

  predicate OccursAt(text: string, phrase: string, i: int) {
    0 <= i <= |text| - |phrase| && text[i..i + |phrase|] == phrase
  }

  predicate Contains(text: string, phrase: string) {
    exists i | 0 <= i <= |text| :: OccursAt(text, phrase, i)
  }

  lemma ContainsIff(text: string, phrase: string)
    ensures Contains(text, phrase) <==> exists before, after :: text == before + phrase + after
  {
    if Contains(text, phrase) {
      var i :| 0 <= i <= |text| && OccursAt(text, phrase, i);
      assert text == text[..i] + phrase + text[i + |phrase|..];
    }
    if exists before, after :: text == before + phrase + after {
      var before, after :| text == before + phrase + after;
      assert text[|before|..|before| + |phrase|] == phrase;
      assert OccursAt(text, phrase, |before|);
    }
  }

  /** `strings.Index`: the first occurrence, or -1. */
  method Index(text: string, phrase: string) returns (at: int)
    ensures at < 0 <==> !Contains(text, phrase)
    ensures at >= 0 ==> OccursAt(text, phrase, at) && forall i :: OccursAt(text, phrase, i) ==> at <= i
  {
    for k := 0 to |text| + 1
      invariant forall i :: 0 <= i < k ==> !OccursAt(text, phrase, i)
    {
      if OccursAt(text, phrase, k) {
        return k;
      }
    }
    at := -1;
  }

  function TrimLeft(s: string): (t: string)
    ensures t == [] || !IsSpace(t[0])
    decreases |s|
  {
    if s != [] && IsSpace(s[0]) then TrimLeft(s[1..]) else s
  }

  function TrimRight(s: string): (t: string)
    ensures t <= s && (t == [] || !IsSpace(t[|t| - 1]))
    decreases |s|
  {
    if s != [] && IsSpace(s[|s| - 1]) then TrimRight(s[..|s| - 1]) else s
  }

  function TrimSpace(s: string): string { TrimRight(TrimLeft(s)) }

  lemma {:induction false} TrimLeftTakesSpace(s: string) returns (a: string)
    ensures s == a + TrimLeft(s) && Blank(a)
    decreases |s|
  {
    a := [];
    if s != [] && IsSpace(s[0]) {
      var rest := TrimLeftTakesSpace(s[1..]);
      a := [s[0]] + rest;
      assert s == [s[0]] + s[1..];
    }
  }

  lemma {:induction false} TrimRightTakesSpace(s: string) returns (b: string)
    ensures s == TrimRight(s) + b && Blank(b)
    decreases |s|
  {
    b := [];
    if s != [] && IsSpace(s[|s| - 1]) {
      var rest := TrimRightTakesSpace(s[..|s| - 1]);
      b := rest + [s[|s| - 1]];
      PutBehind(s[..|s| - 1], TrimRight(s), rest, s[|s| - 1]);
      assert s == s[..|s| - 1] + [s[|s| - 1]];
    }
  }

  lemma PutBehind(s: string, trimmed: string, b: string, c: char)
    requires s == trimmed + b && Blank(b) && IsSpace(c)
    ensures s + [c] == trimmed + (b + [c]) && Blank(b + [c])
  {
  }

  /** Trimming takes white space off both ends, all of it and nothing else. */
  lemma {:induction false} TrimSpaceTakesSpace(s: string) returns (a: string, b: string)
    ensures s == a + TrimSpace(s) + b && Blank(a) && Blank(b)
    ensures TrimSpace(s) != [] ==> !IsSpace(TrimSpace(s)[0]) && !IsSpace(TrimSpace(s)[|TrimSpace(s)| - 1])
  {
    a := TrimLeftTakesSpace(s);
    b := TrimRightTakesSpace(TrimLeft(s));
  }

  /** The length of the leading run that holds no space. */
  function WordLength(s: string): (n: nat)
    ensures n <= |s| && (s != [] && !IsSpace(s[0]) ==> n > 0)
    decreases |s|
  {
    if s == [] || IsSpace(s[0]) then 0 else 1 + WordLength(s[1..])
  }

  /** `strings.Fields`. */
  function Fields(s: string): seq<string>
    decreases |s|
  {
    if s == [] then []
    else if IsSpace(s[0]) then Fields(s[1..])
    else
      var n := WordLength(s);
      [s[..n]] + Fields(s[n..])
  }

  predicate Word(s: string) { s != [] && forall k :: 0 <= k < |s| ==> !IsSpace(s[k]) }

  predicate AllWords(words: seq<string>) { forall k :: 0 <= k < |words| ==> Word(words[k]) }

  /** Words joined by single spaces, as a process line shows its arguments. */
  function Join(words: seq<string>): string
    decreases |words|
  {
    if words == [] then [] else if |words| == 1 then words[0] else words[0] + " " + Join(words[1..])
  }

  lemma {:induction false} WordLengthOf(word: string, rest: string)
    requires forall k :: 0 <= k < |word| ==> !IsSpace(word[k])
    requires rest == [] || IsSpace(rest[0])
    ensures WordLength(word + rest) == |word|
    decreases |word|
  {
    if word != [] {
      assert (word + rest)[1..] == word[1..] + rest;
      WordLengthOf(word[1..], rest);
    } else {
      assert word + rest == rest;
    }
  }

  lemma {:induction false} WordLengthIs(s: string)
    ensures forall k :: 0 <= k < WordLength(s) ==> !IsSpace(s[k])
    ensures WordLength(s) < |s| ==> IsSpace(s[WordLength(s)])
    decreases |s|
  {
    if s != [] && !IsSpace(s[0]) {
      WordLengthIs(s[1..]);
      assert forall k :: 1 <= k < |s| ==> s[k] == s[1..][k - 1];
    }
  }

  /** Any white space parts fields, and only white space does: nothing gives no field, a word is one, and a
      space between two texts parts their fields. */
  lemma {:induction false} FieldsGoBySpace(a: string, c: char, b: string, word: string)
    requires IsSpace(c) && Word(word)
    ensures Fields([]) == [] && Fields(word) == [word]
    ensures Fields(a + [c] + b) == Fields(a) + Fields(b)
    decreases |a|, 1
  {
    WordLengthOf(word, []);
    assert word + [] == word && word[..|word|] == word && word[|word|..] == [];
    var s := a + [c] + b;
    if a == [] {
      assert s[1..] == b;
    } else if IsSpace(a[0]) {
      assert s[1..] == a[1..] + [c] + b;
      FieldsGoBySpace(a[1..], c, b, word);
    } else {
      FirstField(a, c, b, word);
    }
  }

  lemma {:induction false} FirstField(a: string, c: char, b: string, word: string)
    requires IsSpace(c) && Word(word) && a != [] && !IsSpace(a[0])
    ensures Fields(a + [c] + b) == Fields(a) + Fields(b)
    decreases |a|, 0
  {
    var s, n := a + [c] + b, WordLength(a);
    WordLengthIs(a);
    var rest := a[n..] + [c] + b;
    assert s == a[..n] + rest;
    WordLengthOf(a[..n], rest);
    assert s[..n] == a[..n] && s[n..] == rest;
    assert Fields(s) == [a[..n]] + Fields(rest);
    FieldsGoBySpace(a[n..], c, b, word);
  }

  /** Splitting joined words gives the words back. */
  lemma {:induction false} FieldsOfJoin(words: seq<string>)
    requires AllWords(words)
    ensures Fields(Join(words)) == words
    decreases |words|
  {
    if |words| == 1 {
      WordLengthOf(words[0], []);
      assert words[0] + [] == words[0];
      assert words[0][|words[0]|..] == [];
    } else if |words| > 1 {
      var rest := " " + Join(words[1..]);
      WordLengthOf(words[0], rest);
      assert Join(words) == words[0] + rest;
      assert (words[0] + rest)[|words[0]|..] == rest && (words[0] + rest)[..|words[0]|] == words[0];
      assert rest[1..] == Join(words[1..]);
      FieldsOfJoin(words[1..]);
    }
  }

  lemma {:induction false} JoinPrepend(word: string, words: seq<string>)
    requires words != []
    ensures Join([word] + words) == word + " " + Join(words)
  {
    assert ([word] + words)[1..] == words;
  }

  // ---- numbers --------------------------------------------------------------------------------------

  function Digit(d: nat): char
    requires d < 10
  {
    '0' + d as char
  }

  function Decimal(n: nat): (s: string)
    ensures s != []
    decreases n
  {
    if n < 10 then [Digit(n)] else Decimal(n / 10) + [Digit(n % 10)]
  }

  function Digits(s: string): Option<nat>
    decreases |s|
  {
    if s == [] then None
    else
      var last := s[|s| - 1];
      if !('0' <= last <= '9') then None
      else if |s| == 1 then Some((last - '0') as nat)
      else
        match Digits(s[..|s| - 1])
        case None => None
        case Some(high) => Some(10 * high + (last - '0') as nat)
  }

  /** `strconv.Atoi`, with its sign and without its range. */
  function Atoi(s: string): Option<int> {
    if s != [] && s[0] in {'+', '-'} then
      match Digits(s[1..])
      case None => None
      case Some(n) =>
        var value: int := if s[0] == '-' then -(n as int) else n;
        Some(value)
    else
      match Digits(s)
      case None => None
      case Some(n) => Some(n)
  }

  /** Whatever else reads as a number is no decimal. */
  lemma {:induction false} OnlyDigitsRead(s: string)
    ensures Digits(s).Some? <==> s != [] && forall k :: 0 <= k < |s| ==> '0' <= s[k] <= '9'
    decreases |s|
  {
    if |s| > 1 {
      OnlyDigitsRead(s[..|s| - 1]);
    }
  }

  lemma {:induction false} DigitsOfDecimal(n: nat)
    ensures Digits(Decimal(n)) == Some(n)
    ensures forall k :: 0 <= k < |Decimal(n)| ==> '0' <= Decimal(n)[k] <= '9'
    decreases n
  {
    if n >= 10 {
      DigitsOfDecimal(n / 10);
      var s := Decimal(n);
      assert s[..|s| - 1] == Decimal(n / 10);
    }
  }

  lemma AtoiReadsSigns(n: nat)
    ensures Atoi(Decimal(n)) == Some(n) && Atoi("+" + Decimal(n)) == Some(n)
    ensures Atoi("-" + Decimal(n)).Some? && Atoi("-" + Decimal(n)).value == -(n as int)
  {
    DigitsOfDecimal(n);
    assert ("+" + Decimal(n))[1..] == Decimal(n) && ("-" + Decimal(n))[1..] == Decimal(n);
    assert '0' <= Decimal(n)[0] <= '9';
  }

  // ---- text that needs no trimming ------------------------------------------------------------------

  lemma TrimNothing(s: string)
    requires s != [] && !IsSpace(s[0]) && !IsSpace(s[|s| - 1])
    ensures TrimSpace(s) == s
  {
  }

  /** Joined words hold no character that is neither a word's nor a space. */
  lemma {:induction false} JoinHasNo(words: seq<string>, c: char)
    requires forall k :: 0 <= k < |words| ==> c !in words[k]
    requires c != ' '
    ensures c !in Join(words)
    decreases |words|
  {
    if |words| > 1 {
      JoinHasNo(words[1..], c);
      assert c !in " ";
    }
  }
}
