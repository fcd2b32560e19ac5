/** The figures the profile panel derives (components/layout/enhanced-profile-panel.tsx):
    the session time, its "1h 2m 3s" rendering, and the avatar's initials. */
module Profile {
  import opened Wrappers
  import opened Strings
  import Lists

  /** Whole seconds since the session started, `Math.floor((now - start) / 1000)`;
      Dafny's division rounds down for a positive divisor, as `Math.floor` does. */
  function SessionTime(start: int, now: int): (secs: int)
    ensures secs * 1000 <= now - start < (secs + 1) * 1000
    ensures secs >= 0 <==> now >= start
  {
    (now - start) / 1000
  }

  /** The session time never goes back while the clock goes forward. */
  lemma SessionTimeMonotone(start: int, now1: int, now2: int)
    requires now1 <= now2
    ensures SessionTime(start, now1) <= SessionTime(start, now2)
  {
  }

  /** Hours, minutes and seconds of a duration in seconds. */
  datatype Clock = Clock(hours: nat, minutes: nat, secs: nat)

  /** The split `formatSessionTime` makes: the parts add back up to the duration, and
      minutes and seconds stay below 60. */
  function ClockOf(seconds: nat): (c: Clock)
    ensures c.hours * 3600 + c.minutes * 60 + c.secs == seconds
    ensures c.minutes < 60 && c.secs < 60
  {
    var h, r := seconds / 3600, seconds % 3600;
    var m, x := r / 60, r % 60;
    assert r == m * 60 + x;
    assert seconds == (h * 60 + m) * 60 + x;
    DivMod60(seconds, h * 60 + m, x);
    Clock(h, m, seconds % 60)
  }

  /** Division by 60 is determined by quotient and remainder. */
  lemma DivMod60(n: nat, q: nat, r: nat)
    requires n == q * 60 + r && r < 60
    ensures n / 60 == q && n % 60 == r
  {
  }

  /** Division by 3600 is determined by quotient and remainder. */
  lemma DivMod3600(n: nat, q: nat, r: nat)
    requires n == q * 3600 + r && r < 3600
    ensures n / 3600 == q && n % 3600 == r
  {
  }

  /** The split is the only one with minutes and seconds below 60. */
  lemma ClockUnique(seconds: nat, c: Clock)
    requires c.hours * 3600 + c.minutes * 60 + c.secs == seconds
    requires c.minutes < 60 && c.secs < 60
    ensures c == ClockOf(seconds)
  {
    DivMod3600(seconds, c.hours, c.minutes * 60 + c.secs);
    DivMod60(c.minutes * 60 + c.secs, c.minutes, c.secs);
    DivMod60(seconds, c.hours * 60 + c.minutes, c.secs);
  }

  /** `formatSessionTime`: hours are shown only when there are some, minutes only when
      there are hours or minutes, seconds always. */
  function FormatSessionTime(seconds: nat): (text: string)
    ensures var c := ClockOf(seconds);
            && (c.hours > 0 ==> text == NatToString(c.hours) + "h " + NatToString(c.minutes) + "m " + NatToString(c.secs) + "s")
            && (c.hours == 0 && c.minutes > 0 ==> text == NatToString(c.minutes) + "m " + NatToString(c.secs) + "s")
            && (seconds < 60 ==> text == NatToString(seconds) + "s")
  {
    var c := ClockOf(seconds);
    if c.hours > 0 then NatToString(c.hours) + "h " + NatToString(c.minutes) + "m " + NatToString(c.secs) + "s"
    else if c.minutes > 0 then NatToString(c.minutes) + "m " + NatToString(c.secs) + "s"
    else NatToString(c.secs) + "s"
  }

  /** The length of the run of digits a text starts with. */
  function DigitRun(t: string): (k: nat)
    ensures k <= |t| && AllDigits(t[..k])
    ensures k < |t| ==> !IsDigit(t[k])
    decreases |t|
  {
    if |t| == 0 || !IsDigit(t[0]) then 0
    else
      var k := DigitRun(t[1..]);
      assert t[..k + 1] == [t[0]] + t[1..][..k];
      k + 1
  }

  /** Reads a session-time text back into seconds: each number is followed by its unit
      mark, and a mark other than `s` by a space and the rest of the text. */
  function ReadBack(t: string): nat
    decreases |t|
  {
    var k := DigitRun(t);
    if k == |t| then 0
    else
      var n := DigitsValue(t[..k]);
      var rest := if k + 2 <= |t| then t[k + 2..] else "";
      if t[k] == 's' then n
      else if t[k] == 'm' then n * 60 + ReadBack(rest)
      else if t[k] == 'h' then n * 3600 + ReadBack(rest)
      else 0
  }

  /** A rendered number followed by a mark: the digit run is exactly the number. */
  lemma {:induction false} DigitRunOf(a: string, c: char, x: string)
    requires AllDigits(a) && !IsDigit(c)
    ensures DigitRun(a + [c] + x) == |a|
    decreases |a|
  {
    if |a| != 0 {
      assert (a + [c] + x)[1..] == a[1..] + [c] + x;
      DigitRunOf(a[1..], c, x);
    }
  }

  /** The number, the mark and the rest a text is read as. */
  lemma ReadNumber(n: nat, c: char, x: string)
    requires !IsDigit(c)
    ensures var t := NatToString(n) + [c] + x;
            var k := |NatToString(n)|;
            && DigitRun(t) == k && t[..k] == NatToString(n) && t[k] == c && t[k + 1..] == x
            && DigitsValue(t[..k]) == n
  {
    DigitRunOf(NatToString(n), c, x);
    var t := NatToString(n) + [c] + x;
    assert t[..|NatToString(n)|] == NatToString(n);
    NatToStringRoundTrip(n);
  }

  lemma ReadSeconds(x: nat)
    ensures ReadBack(NatToString(x) + "s") == x
  {
    assert NatToString(x) + "s" == NatToString(x) + ['s'] + "";
    ReadNumber(x, 's', "");
  }

  /** A number with the mark `m` or `h` and a space counts that many minutes or hours
      on top of whatever follows. */
  lemma ReadUnit(n: nat, c: char, rest: string)
    requires c == 'm' || c == 'h'
    ensures ReadBack(NatToString(n) + [c, ' '] + rest) == (if c == 'm' then 60 else 3600) * n + ReadBack(rest)
  {
    var t := NatToString(n) + [c, ' '] + rest;
    assert t == NatToString(n) + [c] + ([' '] + rest);
    ReadNumber(n, c, [' '] + rest);
    assert t[|NatToString(n)| + 2..] == rest;
  }

  lemma ReadMinutes(m: nat, x: nat)
    ensures ReadBack(NatToString(m) + "m " + NatToString(x) + "s") == m * 60 + x
  {
    assert NatToString(m) + "m " + NatToString(x) + "s" == NatToString(m) + ['m', ' '] + (NatToString(x) + "s");
    ReadUnit(m, 'm', NatToString(x) + "s");
    ReadSeconds(x);
  }

  lemma ReadHours(h: nat, m: nat, x: nat)
    ensures ReadBack(NatToString(h) + "h " + NatToString(m) + "m " + NatToString(x) + "s") == h * 3600 + m * 60 + x
  {
    var hs, ms, xs := NatToString(h), NatToString(m), NatToString(x);
    var rest := ms + "m " + xs + "s";
    assert hs + "h " + ms + "m " + xs + "s" == hs + ['h', ' '] + rest by {
      assert hs + "h " + ms + "m " + xs + "s" == hs + "h " + (ms + "m " + xs + "s");
    }
    ReadUnit(h, 'h', rest);
    ReadMinutes(m, x);
  }

  /** Reading the text back gives the duration, so different durations never look
      alike. */
  lemma FormatSessionTimeReadsBack(seconds: nat)
    ensures ReadBack(FormatSessionTime(seconds)) == seconds
  {
    var c := ClockOf(seconds);
    if c.hours > 0 {
      ReadHours(c.hours, c.minutes, c.secs);
    } else if c.minutes > 0 {
      ReadMinutes(c.minutes, c.secs);
    } else {
      ReadSeconds(c.secs);
    }
  }

  /** The words that have a first character, in order. */
  function NonEmptyWords(words: seq<string>): seq<string> {
    Lists.Filter(words, (w: string) => |w| > 0)
  }

  /** `n[0]` for each word, where the first character of an empty word is `undefined`
      and joins as nothing: one character per non-empty word, in word order. */
  function Firsts(words: seq<string>): (r: string)
    ensures |r| <= |words|
    ensures forall i :: 0 <= i < |r| ==> exists j :: 0 <= j < |words| && |words[j]| > 0 && r[i] == words[j][0]
    ensures (forall j :: 0 <= j < |words| ==> |words[j]| == 0) <==> r == ""
    ensures |r| == |NonEmptyWords(words)|
    ensures forall i :: 0 <= i < |r| ==> r[i] == NonEmptyWords(words)[i][0]
    decreases |words|
  {
    if |words| == 0 then ""
    else
      var rest := Firsts(words[1..]);
      var r := if |words[0]| > 0 then [words[0][0]] + rest else rest;
      FirstsStep(words, rest, r);
      FirstsMeaning(words, r);
      r
  }

  /** `r` holds the first character of each of `ne`, in order. */
  predicate HeadsOf(r: string, ne: seq<string>) {
    && |r| == |ne|
    && forall i :: 0 <= i < |r| ==> |ne[i]| > 0 && r[i] == ne[i][0]
  }

  /** One word more at the front adds its first character, if it has one. */
  lemma FirstsStep(words: seq<string>, rest: string, r: string)
    requires |words| > 0
    requires |rest| == |NonEmptyWords(words[1..])| && forall i :: 0 <= i < |rest| ==> rest[i] == NonEmptyWords(words[1..])[i][0]
    requires r == if |words[0]| > 0 then [words[0][0]] + rest else rest
    ensures HeadsOf(r, NonEmptyWords(words))
  {
    var ne, neRest := NonEmptyWords(words), NonEmptyWords(words[1..]);
    if |words[0]| > 0 {
      assert ne == [words[0]] + neRest;
      forall i | 0 < i < |r|
        ensures |ne[i]| > 0 && r[i] == ne[i][0]
      {
        assert r[i] == rest[i - 1] && ne[i] == neRest[i - 1];
      }
    } else {
      assert ne == neRest;
    }
  }

  /** The first characters of the non-empty words, read back against the words. */
  lemma FirstsMeaning(words: seq<string>, r: string)
    requires HeadsOf(r, NonEmptyWords(words))
    ensures |r| <= |words|
    ensures forall i :: 0 <= i < |r| ==> exists j :: 0 <= j < |words| && |words[j]| > 0 && r[i] == words[j][0]
    ensures (forall j :: 0 <= j < |words| ==> |words[j]| == 0) <==> r == ""
  {
    var ne := NonEmptyWords(words);
    forall i | 0 <= i < |r|
      ensures exists j :: 0 <= j < |words| && |words[j]| > 0 && r[i] == words[j][0]
    {
      assert ne[i] in words;
    }
    if exists j :: 0 <= j < |words| && |words[j]| > 0 {
      var j :| 0 <= j < |words| && |words[j]| > 0;
      assert words[j] in ne;
    }
  }

  /** The avatar's initials: the first letters of the name's space-separated words, or
      "JD" when there is no name or those letters come to nothing. */
  function Initials(name: Option<string>): (r: string)
    ensures r != ""
    ensures name.None? ==> r == "JD"
    ensures name.Some? && name.value != "" && name.value[0] != ' ' ==> r[0] == name.value[0]
    ensures name.Some? && Firsts(Split(name.value, ' ')) != "" ==> r == Firsts(Split(name.value, ' '))
    ensures name.Some? && (forall w :: w in Split(name.value, ' ') ==> w == "") ==> r == "JD"
  {
    if name.None? then "JD"
    else
      var s := Firsts(Split(name.value, ' '));
      SplitHead(name.value, ' ');
      if s == "" then "JD" else s
  }

  /** The first part of a split starts with the text's first character when that is
      not the separator. */
  lemma SplitHead(s: string, sep: char)
    ensures s != "" && s[0] != sep ==> |Split(s, sep)[0]| > 0 && Split(s, sep)[0][0] == s[0]
  {
  }

  /** A text without the separator splits into itself. */
  lemma {:induction false} SplitNoSep(s: string, sep: char)
    requires sep !in s
    ensures Split(s, sep) == [s]
    decreases |s|
  {
    if |s| != 0 {
      assert sep !in s[1..];
      SplitNoSep(s[1..], sep);
      assert [s[0]] + s[1..] == s;
    }
  }

  /** Splitting a word, the separator and more text gives the word, then the parts of
      the rest. */
  lemma {:induction false} SplitAfterWord(a: string, sep: char, b: string)
    requires sep !in a
    ensures Split(a + [sep] + b, sep) == [a] + Split(b, sep)
    decreases |a|
  {
    var s := a + [sep] + b;
    if |a| == 0 {
      assert s[1..] == b;
    } else {
      assert s[1..] == a[1..] + [sep] + b;
      assert sep !in a[1..];
      SplitAfterWord(a[1..], sep, b);
      assert [a[0]] + a[1..] == a;
    }
  }

  /** A two-word name splits into its two words. */
  lemma SplitTwoWords(first: string, last: string)
    requires ' ' !in first && ' ' !in last
    ensures Split(first + " " + last, ' ') == [first, last]
  {
    SplitAfterWord(first, ' ', last);
    SplitNoSep(last, ' ');
    assert first + " " + last == first + [' '] + last;
  }

  /** A two-word name gives the two first letters. */
  lemma TwoWordInitials(first: string, last: string)
    requires first != "" && last != "" && ' ' !in first && ' ' !in last
    ensures Initials(Some(first + " " + last)) == [first[0], last[0]]
  {
    SplitTwoWords(first, last);
    var words := [first, last];
    assert words[1..] == [last];
    assert [last][1..] == [];
    assert Firsts([last]) == [last[0]];
    assert Firsts(words) == [first[0], last[0]];
  }

  /** A name of spaces only falls back to "JD". */
  lemma BlankNameIsJD(name: string)
    requires forall i :: 0 <= i < |name| ==> name[i] == ' '
    ensures Initials(Some(name)) == "JD"
  {
    SplitOfSpaces(name);
  }

  /** Every part of a text made of separators alone is empty. */
  lemma {:induction false} SplitOfSpaces(s: string)
    requires forall i :: 0 <= i < |s| ==> s[i] == ' '
    ensures forall j :: 0 <= j < |Split(s, ' ')| ==> Split(s, ' ')[j] == ""
    decreases |s|
  {
    if |s| != 0 {
      SplitOfSpaces(s[1..]);
    }
  }
}
