/** The string formatters of the utilities: phone numbers, truncation,
    names in title case, and the status-to-class table. */
module Formatters {
  import opened Text
  import Lists

  /** The digits of a string, in order: `replace(/\D/g, '')`. */
  function DigitsOf(s: string): (r: string)
    ensures AllDigits(r) && |r| <= |s|
  {
    Lists.Filter(s, IsDigit)
  }

  /** The US layout "(AAA) BBB-CCCC" of three digit groups. */
  function UsLayout(a: string, b: string, d: string): (r: string)
    ensures |r| == |a| + |b| + |d| + 4
    ensures r[0] == '(' && r[|a| + 1] == ')' && r[|a| + 2] == ' ' && r[|a| + |b| + 3] == '-'
  {
    "(" + a + ") " + b + "-" + d
  }

  /** `formatPhoneNumber`: 'N/A' for "", the US layout for exactly ten
      digits, "+<rest> " and the US layout of the last ten digits for more,
      and otherwise the input as it was. */
  function FormatPhoneNumber(phoneNumber: string): (r: string)
    ensures phoneNumber == "" ==> r == "N/A"
    ensures phoneNumber != "" && |DigitsOf(phoneNumber)| < 10 ==> r == phoneNumber
    ensures phoneNumber != "" && |DigitsOf(phoneNumber)| == 10 ==>
      |r| == 14 && r[0] == '(' && r[4] == ')' && r[5] == ' ' && r[9] == '-'
    ensures phoneNumber != "" && |DigitsOf(phoneNumber)| > 10 ==>
      |r| == |DigitsOf(phoneNumber)| + 6 && r[0] == '+'
  {
    if phoneNumber == "" then "N/A"
    else
      var cleaned := DigitsOf(phoneNumber);
      var n := |cleaned|;
      if n == 10 then UsLayout(cleaned[..3], cleaned[3..6], cleaned[6..])
      else if n > 10 then
        "+" + cleaned[..n - 10] + " " + UsLayout(cleaned[n - 10..n - 7], cleaned[n - 7..n - 4], cleaned[n - 4..])
      else phoneNumber
  }

  /** Each group of the US layout stands between its punctuation. */
  lemma UsLayoutGroups(a: string, b: string, d: string)
    ensures var r := UsLayout(a, b, d);
      r[1..|a| + 1] == a && r[|a| + 3..|a| + |b| + 3] == b && r[|a| + |b| + 4..] == d
  {
    var r := UsLayout(a, b, d);
    assert r == "(" + a + ") " + b + "-" + d;
    assert r[1..|a| + 1] == a;
    assert r[|a| + 3..|a| + |b| + 3] == b;
  }

  /** Where the digits go: ten digits fill the US layout in order; with
      more, the leading digits are the country code after '+', then a space
      and the US layout of the last ten. */
  lemma FormatPhoneLayout(phoneNumber: string)
    requires phoneNumber != "" && |DigitsOf(phoneNumber)| >= 10
    ensures var d, r := DigitsOf(phoneNumber), FormatPhoneNumber(phoneNumber);
      |d| == 10 ==> r[1..4] == d[..3] && r[6..9] == d[3..6] && r[10..] == d[6..]
    ensures var d, r := DigitsOf(phoneNumber), FormatPhoneNumber(phoneNumber);
      var n := |d|;
      n > 10 ==> (r[..n - 9] == "+" + d[..n - 10] && r[n - 9] == ' '
        && r[n - 8..] == UsLayout(d[n - 10..n - 7], d[n - 7..n - 4], d[n - 4..])
        && r[n - 8] == '(' && r[n - 4] == ')' && r[n - 3] == ' ' && r[n + 1] == '-')
  {
    var d := DigitsOf(phoneNumber);
    var n := |d|;
    var r := FormatPhoneNumber(phoneNumber);
    if n == 10 {
      UsLayoutGroups(d[..3], d[3..6], d[6..]);
    } else {
      var p := "+" + d[..n - 10];
      var local := UsLayout(d[n - 10..n - 7], d[n - 7..n - 4], d[n - 4..]);
      assert r == p + " " + local;
      assert |p| == n - 9;
      assert r[..n - 9] == p;
      assert r[n - 8..] == local;
    }
  }

  lemma DigitsOfDigits(s: string)
    requires AllDigits(s)
    ensures DigitsOf(s) == s
  {
    Lists.FilterAllKept(s, IsDigit);
  }

  lemma {:induction false} DigitsOfPunctuation(s: string)
    requires forall i :: 0 <= i < |s| ==> !IsDigit(s[i])
    ensures DigitsOf(s) == ""
    decreases |s|
  {
    if s != "" {
      DigitsOfPunctuation(s[1..]);
    }
  }

  lemma DigitsOfAppend(a: string, b: string)
    ensures DigitsOf(a + b) == DigitsOf(a) + DigitsOf(b)
  {
    Lists.FilterAppend(a, b, IsDigit);
  }

  /** Appending punctuation adds no digit. */
  lemma DigitsOfThenPunctuation(x: string, sep: string)
    requires forall i :: 0 <= i < |sep| ==> !IsDigit(sep[i])
    ensures DigitsOf(x + sep) == DigitsOf(x)
  {
    DigitsOfAppend(x, sep);
    DigitsOfPunctuation(sep);
    assert DigitsOf(x) + "" == DigitsOf(x);
  }

  /** Appending digits adds exactly those digits. */
  lemma DigitsOfThenDigits(x: string, a: string)
    requires AllDigits(a)
    ensures DigitsOf(x + a) == DigitsOf(x) + a
  {
    DigitsOfAppend(x, a);
    DigitsOfDigits(a);
  }

  /** The digits of the US layout are its three groups. */
  lemma DigitsOfUsLayout(a: string, b: string, d: string)
    requires AllDigits(a) && AllDigits(b) && AllDigits(d)
    ensures DigitsOf(UsLayout(a, b, d)) == a + b + d
  {
    var x1 := "(";
    DigitsOfPunctuation(x1);
    var x2 := x1 + a;
    DigitsOfThenDigits(x1, a);
    var x3 := x2 + ") ";
    DigitsOfThenPunctuation(x2, ") ");
    var x4 := x3 + b;
    DigitsOfThenDigits(x3, b);
    var x5 := x4 + "-";
    DigitsOfThenPunctuation(x4, "-");
    var x6 := x5 + d;
    DigitsOfThenDigits(x5, d);
    assert x6 == UsLayout(a, b, d);
  }

  /** The digits of the international layout are the prefix, then the digits of the rest. */
  lemma DigitsOfInternational(p: string, local: string)
    requires AllDigits(p)
    ensures DigitsOf("+" + p + " " + local) == p + DigitsOf(local)
  {
    var x1 := "+";
    DigitsOfPunctuation(x1);
    var x2 := x1 + p;
    DigitsOfThenDigits(x1, p);
    var x3 := x2 + " ";
    DigitsOfThenPunctuation(x2, " ");
    DigitsOfAppend(x3, local);
  }

  /** A formatted number holds exactly the digits it was made from, in order:
      formatting adds and drops no digit. */
  lemma FormatPhoneKeepsDigits(phoneNumber: string)
    requires |DigitsOf(phoneNumber)| >= 10
    ensures DigitsOf(FormatPhoneNumber(phoneNumber)) == DigitsOf(phoneNumber)
  {
    var c := DigitsOf(phoneNumber);
    var n := |c|;
    assert phoneNumber != "";
    var a, b, d := c[n - 10..n - 7], c[n - 7..n - 4], c[n - 4..];
    DigitsOfUsLayout(a, b, d);
    assert a + b + d == c[n - 10..];
    if n == 10 {
      assert c[..3] == a && c[3..6] == b && c[6..] == d;
    } else {
      var p := c[..n - 10];
      DigitsOfInternational(p, UsLayout(a, b, d));
      assert p + c[n - 10..] == c;
    }
  }

  /** Formatting a formatted number changes nothing. */
  lemma FormatPhoneIdempotent(phoneNumber: string)
    ensures FormatPhoneNumber(FormatPhoneNumber(phoneNumber)) == FormatPhoneNumber(phoneNumber)
  {
    if phoneNumber == "" {
      DigitsOfPunctuation("N/A");
    } else if |DigitsOf(phoneNumber)| >= 10 {
      FormatPhoneKeepsDigits(phoneNumber);
    }
  }

  /** `truncateText`, for a maximum length that is not negative. */
  function TruncateText(text: string, maxLength: nat := 100): (r: string)
    ensures |text| <= maxLength ==> r == text
    ensures |text| > maxLength ==>
      |r| == maxLength + 3 && r[..maxLength] == text[..maxLength] && r[maxLength..] == "..."
  {
    if text == "" then ""
    else if |text| <= maxLength then text
    else text[..maxLength] + "..."
  }

  /** Truncating a truncated text leaves it as it is. */
  lemma TruncateIdempotent(text: string, maxLength: nat)
    ensures TruncateText(TruncateText(text, maxLength), maxLength) == TruncateText(text, maxLength)
  {
    if |text| > maxLength {
      var r := TruncateText(text, maxLength);
      assert r[..maxLength] + "..." == r;
    }
  }

  /** `word.charAt(0).toUpperCase() + word.slice(1)`. */
  function Capitalize(word: string): (r: string)
    ensures |r| == |word|
  {
    if word == "" then "" else [UpperChar(word[0])] + word[1..]
  }

  function CapitalizeAll(words: seq<string>): (r: seq<string>)
    ensures |r| == |words|
    ensures forall i :: 0 <= i < |words| ==> r[i] == Capitalize(words[i])
  {
    seq(|words|, i requires 0 <= i < |words| => Capitalize(words[i]))
  }

  /** `split(' ').map(capitalize).join(' ')`. */
  function CapitalizeWords(s: string): string {
    Join(CapitalizeAll(Split(s, ' ')), ' ')
  }

  /** The character-by-character reading of the same transformation: a
      character at the start or right after a space is upper-cased, every
      other character is kept. */
  function TitleCase(s: string): (r: string)
    ensures |r| == |s|
    ensures forall i :: 0 <= i < |s| ==> r[i] == if i == 0 || s[i - 1] == ' ' then UpperChar(s[i]) else s[i]
  {
    seq(|s|, i requires 0 <= i < |s| => if i == 0 || s[i - 1] == ' ' then UpperChar(s[i]) else s[i])
  }

  /** `formatName`. */
  function FormatName(name: string): (r: string)
    ensures name == "" ==> r == "N/A"
  {
    if name == "" then "N/A" else CapitalizeWords(Lower(name))
  }

  lemma SplitFirstWord(t: string)
    ensures Split(t, ' ')[0] == "" <==> t == "" || t[0] == ' '
    ensures Split(t, ' ')[0] != "" ==> Split(t, ' ')[0][0] == t[0]
  {
  }

  lemma JoinCons(w: string, ws: seq<string>)
    ensures Join([w] + ws, ' ') == w + (if ws == [] then "" else [' '] + Join(ws, ' '))
  {
    assert ([w] + ws)[1..] == ws;
  }

  /** The text the words after the first contribute, their separator included. */
  function WordsAfter(ws: seq<string>): string {
    if ws == [] then "" else [' '] + Join(CapitalizeAll(ws), ' ')
  }

  /** Capitalising the words of `t` is its first word capitalised, followed
      by what the remaining words give. */
  lemma CapitalizeWordsFirst(t: string, w: string, ws: seq<string>)
    requires Split(t, ' ') == [w] + ws
    ensures CapitalizeWords(t) == Capitalize(w) + WordsAfter(ws)
  {
    CapitalizeJoinFirst(w, ws);
  }

  lemma CapitalizeJoinFirst(w: string, ws: seq<string>)
    ensures Join(CapitalizeAll([w] + ws), ' ') == Capitalize(w) + WordsAfter(ws)
  {
    assert CapitalizeAll([w] + ws) == [Capitalize(w)] + CapitalizeAll(ws);
    JoinCons(Capitalize(w), CapitalizeAll(ws));
  }

  /** A leading space stays and starts a new word. */
  lemma CapitalizeWordsSpace(t: string)
    ensures CapitalizeWords([' '] + t) == [' '] + CapitalizeWords(t)
  {
    var s := [' '] + t;
    assert s[1..] == t;
    var rest := Split(t, ' ');
    assert Split(s, ' ') == [""] + rest;
    assert CapitalizeAll(Split(s, ' ')) == [""] + CapitalizeAll(rest);
    JoinCons("", CapitalizeAll(rest));
  }

  lemma SplitLetter(c: char, t: string)
    requires c != ' '
    ensures Split([c] + t, ' ') == [[c] + Split(t, ' ')[0]] + Split(t, ' ')[1..]
  {
    assert ([c] + t)[1..] == t;
  }

  /** The words of `t`: its first word capitalised, then the others. */
  lemma CapitalizeWordsSplit(t: string)
    ensures CapitalizeWords(t) == Capitalize(Split(t, ' ')[0]) + WordsAfter(Split(t, ' ')[1..])
  {
    var rest := Split(t, ' ');
    assert rest == [rest[0]] + rest[1..];
    CapitalizeWordsFirst(t, rest[0], rest[1..]);
  }

  /** A leading non-space joins the first word of `t` and is upper-cased. */
  lemma CapitalizeWordsLetterJoins(c: char, t: string)
    requires c != ' '
    ensures CapitalizeWords([c] + t) == [UpperChar(c)] + Split(t, ' ')[0] + WordsAfter(Split(t, ' ')[1..])
  {
    var rest := Split(t, ' ');
    SplitLetter(c, t);
    CapitalizeWordsFirst([c] + t, [c] + rest[0], rest[1..]);
    assert Capitalize([c] + rest[0]) == [UpperChar(c)] + rest[0];
  }

  /** The step from the split form to the character form, on plain strings:
      `x` is the capitalised `[c] + t` and `y` the capitalised `t`. */
  lemma LetterStep(u: char, t: string, w: string, after: string, x: string, y: string)
    requires x == [u] + w + after && y == Capitalize(w) + after
    requires w == "" <==> t == "" || t[0] == ' '
    requires w != "" ==> w[0] == t[0]
    ensures x == if t == "" || t[0] == ' ' then [u] + y else [u] + [t[0]] + y[1..]
  {
    if w != "" {
      assert w == [t[0]] + w[1..];
      LetterStepWord(u, t[0], w[1..], after, x, y);
    } else {
      assert y == after && x == [u] + after;
    }
  }

  lemma LetterStepWord(u: char, c: char, v: string, after: string, x: string, y: string)
    requires x == [u] + ([c] + v) + after && y == Capitalize([c] + v) + after
    ensures x == [u] + [c] + y[1..]
  {
    var w := [c] + v;
    assert w[0] == c && w[1..] == v;
    assert Capitalize(w) == [UpperChar(c)] + v;
    assert y == [UpperChar(c)] + (v + after);
    assert y[1..] == v + after;
    assert x == [u] + [c] + (v + after);
  }

  /** A leading non-space is upper-cased, and the character after it is kept
      unless it starts a word of its own. */
  lemma CapitalizeWordsLetter(c: char, t: string)
    requires c != ' '
    ensures CapitalizeWords([c] + t) ==
      if t == "" || t[0] == ' ' then [UpperChar(c)] + CapitalizeWords(t)
      else [UpperChar(c)] + [t[0]] + CapitalizeWords(t)[1..]
  {
    var w, after := Split(t, ' ')[0], WordsAfter(Split(t, ' ')[1..]);
    CapitalizeWordsLetterJoins(c, t);
    CapitalizeWordsSplit(t);
    SplitFirstWord(t);
    LetterStep(UpperChar(c), t, w, after, CapitalizeWords([c] + t), CapitalizeWords(t));
  }

  /** The same two facts for the character-by-character reading. */
  lemma TitleCaseCons(c: char, t: string)
    ensures TitleCase([c] + t) ==
      if c == ' ' then [' '] + TitleCase(t)
      else if t == "" || t[0] == ' ' then [UpperChar(c)] + TitleCase(t)
      else [UpperChar(c)] + [t[0]] + TitleCase(t)[1..]
  {
    var s := [c] + t;
    assert forall i :: 0 < i < |s| ==> s[i] == t[i - 1];
  }

  /** Splitting at spaces, capitalising every word and joining again is the
      character-by-character title case. */
  lemma {:induction false} CapitalizeWordsIsTitleCase(s: string)
    ensures CapitalizeWords(s) == TitleCase(s)
    decreases |s|
  {
    if s == [] {
      assert Split(s, ' ') == [""];
      assert CapitalizeAll([""]) == [""];
    } else {
      var t := s[1..];
      assert s == [s[0]] + t;
      CapitalizeWordsIsTitleCase(t);
      TitleCaseCons(s[0], t);
      if s[0] == ' ' {
        CapitalizeWordsSpace(t);
      } else {
        CapitalizeWordsLetter(s[0], t);
      }
    }
  }

  /** What `formatName` does to each character of a non-empty name: the
      name keeps its length and its spaces; the first character of every
      word is upper-cased and all the others lower-cased. */
  lemma FormatNamePointwise(name: string)
    requires name != ""
    ensures |FormatName(name)| == |name|
    ensures forall i :: 0 <= i < |name| ==> (FormatName(name)[i] == ' ' <==> name[i] == ' ')
    ensures forall i :: 0 <= i < |name| ==> (FormatName(name)[i] ==
      if i == 0 || name[i - 1] == ' ' then UpperChar(LowerChar(name[i])) else LowerChar(name[i]))
  {
    CapitalizeWordsIsTitleCase(Lower(name));
  }

  /** A formatted name formats to itself. (The 'N/A' placeholder given
      for an empty name does not: it formats to 'N/a'.) */
  lemma FormatNameIdempotent(name: string)
    requires name != ""
    ensures FormatName(FormatName(name)) == FormatName(name)
  {
    var r := FormatName(name);
    FormatNamePointwise(name);
    FormatNamePointwise(r);
    forall i | 0 <= i < |r|
      ensures FormatName(r)[i] == r[i]
    {
      var x := LowerChar(name[i]);
      CaseRoundTrip(name[i]);
      if i == 0 || name[i - 1] == ' ' {
        assert r[i] == UpperChar(x);
        assert FormatName(r)[i] == UpperChar(LowerChar(r[i]));
      } else {
        assert r[i - 1] != ' ';
        assert r[i] == x;
        assert FormatName(r)[i] == LowerChar(r[i]);
      }
    }
    assert |FormatName(r)| == |r|;
  }

  /** Lowering undoes upper-casing a lowered character. */
  lemma CaseRoundTrip(c: char)
    ensures LowerChar(UpperChar(LowerChar(c))) == LowerChar(c)
    ensures LowerChar(LowerChar(c)) == LowerChar(c)
  {
  }

  const DefaultStatusClass := "bg-gray-100 text-gray-800"

  /** The status table of `getStatusClass`. */
  const StatusClasses: map<string, string> := map[
    "PENDING" := "bg-yellow-100 text-yellow-800",
    "ASSIGNED" := "bg-blue-100 text-blue-800",
    "IN_PROGRESS" := "bg-purple-100 text-purple-800",
    "COMPLETED" := "bg-green-100 text-green-800",
    "DROPPED" := "bg-red-100 text-red-800",
    "ACTIVE" := "bg-green-100 text-green-800",
    "INACTIVE" := "bg-red-100 text-red-800",
    "APPROVED" := "bg-green-100 text-green-800",
    "REJECTED" := "bg-red-100 text-red-800",
    "WAITING" := "bg-yellow-100 text-yellow-800",
    "SUCCESS" := "bg-green-100 text-green-800",
    "FAILED" := "bg-red-100 text-red-800"]

  /** `getStatusClass`: the table entry, or gray for any other status. */
  function GetStatusClass(status: string): (r: string)
    ensures status in StatusClasses ==> r == StatusClasses[status]
    ensures status !in StatusClasses ==> r == DefaultStatusClass
  {
    if status in StatusClasses && StatusClasses[status] != "" then StatusClasses[status] else DefaultStatusClass
  }

  /** Green is exactly the successful statuses, red exactly the failed ones,
      and the lookup is case-sensitive. */
  lemma StatusClassGroups(status: string)
    ensures GetStatusClass(status) == "bg-green-100 text-green-800" <==>
      status in {"COMPLETED", "ACTIVE", "APPROVED", "SUCCESS"}
    ensures GetStatusClass(status) == "bg-red-100 text-red-800" <==>
      status in {"DROPPED", "INACTIVE", "REJECTED", "FAILED"}
    ensures GetStatusClass("pending") == DefaultStatusClass
  {
  }
}
