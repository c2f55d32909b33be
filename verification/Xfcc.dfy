/** Reading the peer identity out of an X-Forwarded-Client-Cert header
    (libs/common/sovereign/mtls.py). */
module Xfcc {
  import opened Prelude

  // ---------------------------------------------------------------- splitting outside quotes

  /** Where a left-to-right scan stands. */
  datatype Scan = Scan(quoted: bool, escaped: bool)

  const OUTSIDE := Scan(false, false)

  function Advance(st: Scan, c: char): Scan {
    if st.escaped then st.(escaped := false)
    else if c == '\\' then st.(escaped := true)
    else if c == '"' then st.(quoted := !st.quoted)
    else st
  }

  /** A separator counts only outside quotes and unescaped. */
  predicate Cuts(st: Scan, c: char, sep: char) {
    !st.escaped && c != '\\' && c != '"' && c == sep && !st.quoted
  }

  /** Text put in front of the first part. */
  function Glue(text: string, parts: seq<string>): (glued: seq<string>)
    requires parts != []
    ensures |glued| == |parts|
  {
    [text + parts[0]] + parts[1..]
  }

  lemma GlueNothing(parts: seq<string>)
    requires parts != []
    ensures Glue([], parts) == parts
  {
    assert [] + parts[0] == parts[0];
    assert parts == [parts[0]] + parts[1..];
  }

  lemma GlueTwice(a: string, b: string, parts: seq<string>)
    requires parts != []
    ensures Glue(a, Glue(b, parts)) == Glue(a + b, parts)
  {
    assert a + (b + parts[0]) == (a + b) + parts[0];
    assert Glue(b, parts)[1..] == parts[1..];
  }

  function Split(s: string, sep: char, st: Scan): (parts: seq<string>)
    ensures parts != []
    decreases |s|
  {
    if s == [] then [[]]
    else if Cuts(st, s[0], sep) then [[]] + Split(s[1..], sep, st)
    else Glue([s[0]], Split(s[1..], sep, Advance(st, s[0])))
  }

  method SplitUnquoted(value: string, sep: char) returns (parts: seq<string>)
    ensures parts == Split(value, sep, OUTSIDE)
  {
    parts := [];
    var current: string := [];
    var inQuotes, escaped := false, false;
    GlueNothing(Split(value, sep, OUTSIDE));
    assert value[0..] == value;
    for i := 0 to |value|
      invariant Split(value, sep, OUTSIDE) == parts + Glue(current, Split(value[i..], sep, Scan(inQuotes, escaped)))
    {
      var ch := value[i];
      SplitOnce(value[i..], sep, Scan(inQuotes, escaped), current);
      assert value[i..][0] == ch && value[i..][1..] == value[i + 1..];
      if escaped {
        current := current + [ch];
        escaped := false;
      } else if ch == '\\' {
        current := current + [ch];
        escaped := true;
      } else if ch == '"' {
        inQuotes := !inQuotes;
        current := current + [ch];
      } else if ch == sep && !inQuotes {
        parts := parts + [current];
        current := [];
      } else {
        current := current + [ch];
      }
    }
    assert Glue(current, [[]]) == [current] by {
      assert current + [] == current;
    }
    parts := parts + [current];
  }

  lemma SplitOnce(s: string, sep: char, st: Scan, current: string)
    requires s != []
    ensures var rest := Split(s[1..], sep, Advance(st, s[0]));
            Glue(current, Split(s, sep, st)) ==
            if Cuts(st, s[0], sep) then [current] + Glue([], rest) else Glue(current + [s[0]], rest)
  {
    var rest := Split(s[1..], sep, Advance(st, s[0]));
    if Cuts(st, s[0], sep) {
      GlueNothing(rest);
      assert current + [] == current;
    } else {
      GlueTwice(current, [s[0]], rest);
    }
  }

  function Join(parts: seq<string>, sep: char): string {
    if parts == [] then []
    else if |parts| == 1 then parts[0]
    else parts[0] + [sep] + Join(parts[1..], sep)
  }

  lemma JoinGlue(text: string, parts: seq<string>, sep: char)
    requires parts != []
    ensures Join(Glue(text, parts), sep) == text + Join(parts, sep)
  {
    assert Glue(text, parts)[1..] == parts[1..];
  }

  /** For every string and separator, joining the parts gives the string back. */
  lemma {:induction false} JoinUndoesSplit(s: string, sep: char, st: Scan)
    ensures Join(Split(s, sep, st), sep) == s
    decreases |s|
  {
    if s != [] {
      if Cuts(st, s[0], sep) {
        JoinUndoesSplit(s[1..], sep, st);
        var rest := Split(s[1..], sep, st);
        assert ([[]] + rest)[1..] == rest;
      } else {
        JoinUndoesSplit(s[1..], sep, Advance(st, s[0]));
        JoinGlue([s[0]], Split(s[1..], sep, Advance(st, s[0])), sep);
      }
    }
  }

  // ---------------------------------------------------------------- sealed text

  function ScanAll(s: string, st: Scan): Scan
    decreases |s|
  {
    if s == [] then st else ScanAll(s[1..], Advance(st, s[0]))
  }

  /** No separator of s cuts. */
  predicate NoCut(s: string, sep: char, st: Scan)
    decreases |s|
  {
    s != [] ==> !Cuts(st, s[0], sep) && NoCut(s[1..], sep, Advance(st, s[0]))
  }

  /** Text that no separator cuts and that leaves no quote or escape open. */
  predicate Sealed(s: string, sep: char) {
    NoCut(s, sep, OUTSIDE) && ScanAll(s, OUTSIDE) == OUTSIDE
  }

  lemma {:induction false} SplitAfter(s: string, rest: string, sep: char, st: Scan)
    requires NoCut(s, sep, st)
    ensures Split(s + rest, sep, st) == Glue(s, Split(rest, sep, ScanAll(s, st)))
    decreases |s|
  {
    if s == [] {
      assert s + rest == rest;
      GlueNothing(Split(rest, sep, st));
    } else {
      assert (s + rest)[1..] == s[1..] + rest;
      SplitAfter(s[1..], rest, sep, Advance(st, s[0]));
      var parts := Split(rest, sep, ScanAll(s, st));
      assert s == [s[0]] + s[1..];
      GlueTwice([s[0]], s[1..], parts);
    }
  }

  lemma {:induction false} ScanConcat(a: string, b: string, sep: char, st: Scan)
    ensures ScanAll(a + b, st) == ScanAll(b, ScanAll(a, st))
    ensures NoCut(a + b, sep, st) <==> NoCut(a, sep, st) && NoCut(b, sep, ScanAll(a, st))
    decreases |a|
  {
    if a == [] {
      assert a + b == b;
    } else {
      assert (a + b)[1..] == a[1..] + b;
      ScanConcat(a[1..], b, sep, Advance(st, a[0]));
    }
  }

  /** Splitting undoes joining sealed parts. */
  lemma {:induction false} SplitUndoesJoin(parts: seq<string>, sep: char)
    requires parts != [] && sep != '\\' && sep != '"'
    requires forall i :: 0 <= i < |parts| ==> Sealed(parts[i], sep)
    ensures Split(Join(parts, sep), sep, OUTSIDE) == parts
    decreases |parts|
  {
    var first := parts[0];
    if |parts| == 1 {
      SplitAfter(first, [], sep, OUTSIDE);
      assert first + [] == first;
    } else {
      SplitUndoesJoin(parts[1..], sep);
      var rest := Join(parts[1..], sep);
      SplitAfter(first, [sep] + rest, sep, OUTSIDE);
      assert first + [sep] + rest == first + ([sep] + rest);
      assert ([sep] + rest)[1..] == rest;
      assert Cuts(OUTSIDE, sep, sep);
      assert first + [] == first;
      assert parts == [first] + parts[1..];
    }
  }

  lemma {:induction false} JoinIsSealed(parts: seq<string>, inner: char, outer: char)
    requires inner != outer && inner != '\\' && inner != '"'
    requires forall i :: 0 <= i < |parts| ==> Sealed(parts[i], outer)
    ensures Sealed(Join(parts, inner), outer)
    decreases |parts|
  {
    if |parts| > 1 {
      JoinIsSealed(parts[1..], inner, outer);
      var rest := Join(parts[1..], inner);
      ScanConcat(parts[0] + [inner], rest, outer, OUTSIDE);
      ScanConcat(parts[0], [inner], outer, OUTSIDE);
    }
  }

  // ---------------------------------------------------------------- where a separator cuts

  /** Position i comes right behind an odd run of backslashes. */
  predicate Escaped(s: string, i: nat)
    requires i <= |s|
  {
    i > 0 && s[i - 1] == '\\' && !Escaped(s, i - 1)
  }

  /** An odd number of unescaped quotes stands before position i. */
  predicate InQuotes(s: string, i: nat)
    requires i <= |s|
  {
    i > 0 && InQuotes(s, i - 1) != (s[i - 1] == '"' && !Escaped(s, i - 1))
  }

  /** The scan's two flags are these two facts about the text before. */
  lemma {:induction false} ScanMeans(s: string, i: nat)
    requires i <= |s|
    ensures ScanAll(s[..i], OUTSIDE) == Scan(InQuotes(s, i), Escaped(s, i))
    decreases i
  {
    if i > 0 {
      ScanMeans(s, i - 1);
      assert s[..i] == s[..i - 1] + [s[i - 1]];
      ScanConcat(s[..i - 1], [s[i - 1]], ' ', OUTSIDE);
      var st := ScanAll(s[..i - 1], OUTSIDE);
      assert ScanAll([s[i - 1]], st) == ScanAll([], Advance(st, s[i - 1]));
    }
  }

  /** A separator that is neither escaped nor inside quotes. */
  predicate CutAt(s: string, sep: char, i: nat) {
    i < |s| && s[i] == sep && !Escaped(s, i) && !InQuotes(s, i)
  }

  lemma {:induction false} NoCutBefore(s: string, sep: char, i: nat)
    requires i <= |s| && forall j :: 0 <= j < i ==> !CutAt(s, sep, j)
    ensures NoCut(s[..i], sep, OUTSIDE)
    decreases i
  {
    if i > 0 {
      NoCutBefore(s, sep, i - 1);
      ScanMeans(s, i - 1);
      assert s[..i] == s[..i - 1] + [s[i - 1]];
      assert !CutAt(s, sep, i - 1);
      ScanConcat(s[..i - 1], [s[i - 1]], sep, OUTSIDE);
    }
  }

  /** What splitting means: the text up to the first separator that is neither escaped
      nor inside quotes is the first part, and the rest is split anew; without such a
      separator the text is the only part. */
  lemma SplitAtFirstCut(s: string, sep: char, i: nat)
    requires sep != '\\' && sep != '"'
    ensures (forall j :: 0 <= j < |s| ==> !CutAt(s, sep, j)) ==> Split(s, sep, OUTSIDE) == [s]
    ensures CutAt(s, sep, i) && (forall j :: 0 <= j < i ==> !CutAt(s, sep, j)) ==>
              Split(s, sep, OUTSIDE) == [s[..i]] + Split(s[i + 1..], sep, OUTSIDE)
  {
    if forall j :: 0 <= j < |s| ==> !CutAt(s, sep, j) {
      NoCutBefore(s, sep, |s|);
      assert s[..|s|] == s && s + [] == s;
      SplitAfter(s, [], sep, OUTSIDE);
    }
    if CutAt(s, sep, i) && forall j :: 0 <= j < i ==> !CutAt(s, sep, j) {
      NoCutBefore(s, sep, i);
      ScanMeans(s, i);
      assert s == s[..i] + s[i..] && s[i..][1..] == s[i + 1..];
      SplitAfter(s[..i], s[i..], sep, OUTSIDE);
      assert Split(s[i..], sep, OUTSIDE) == [[]] + Split(s[i + 1..], sep, OUTSIDE);
      assert s[..i] + [] == s[..i];
    }
  }

  // ---------------------------------------------------------------- stripping and unquoting

  predicate IsSpace(c: char) {
    || '\t' <= c <= '\r' || '\U{1c}' <= c <= ' ' || c == '\U{85}' || c == '\U{a0}' || c == '\U{1680}'
    || '\U{2000}' <= c <= '\U{200a}' || c == '\U{2028}' || c == '\U{2029}' || c == '\U{202f}'
    || c == '\U{205f}' || c == '\U{3000}'
  }

  function StripLeft(s: string): string {
    if s != [] && IsSpace(s[0]) then StripLeft(s[1..]) else s
  }

  function StripRight(s: string): string {
    if s != [] && IsSpace(s[|s| - 1]) then StripRight(s[..|s| - 1]) else s
  }

  function Strip(s: string): string {
    StripRight(StripLeft(s))
  }

  function Unescape(s: string, escaped: bool): string
    decreases |s|
  {
    if s == [] then []
    else if escaped then [s[0]] + Unescape(s[1..], false)
    else if s[0] == '\\' then Unescape(s[1..], true)
    else [s[0]] + Unescape(s[1..], false)
  }

  function Unquoted(value: string): string {
    var v := Strip(value);
    if |v| >= 2 && v[0] == '"' && v[|v| - 1] == '"' then Unescape(v[1..|v| - 1], false) else v
  }

  method UnescapeLoop(inner: string) returns (text: string)
    ensures text == Unescape(inner, false)
  {
    text := [];
    var escaped := false;
    assert inner[0..] == inner;
    for i := 0 to |inner|
      invariant Unescape(inner, false) == text + Unescape(inner[i..], escaped)
    {
      var ch := inner[i];
      assert inner[i..][0] == ch && inner[i..][1..] == inner[i + 1..];
      if escaped {
        text := text + [ch];
        escaped := false;
      } else if ch == '\\' {
        escaped := true;
      } else {
        text := text + [ch];
      }
    }
  }

  method Unquote(value: string) returns (text: string)
    ensures text == Unquoted(value)
  {
    var v := Strip(value);
    if |v| >= 2 && v[0] == '"' && v[|v| - 1] == '"' {
      text := UnescapeLoop(v[1..|v| - 1]);
    } else {
      text := v;
    }
  }

  /** What unescaping means: of each character only a backslash that is not itself
      escaped is dropped. */
  lemma UnescapeDropsBackslashes(s: string, i: nat)
    requires i < |s|
    ensures Unescape(s[..i + 1], false)
            == Unescape(s[..i], false) + if s[i] == '\\' && !Escaped(s, i) then [] else [s[i]]
  {
    assert s[..i + 1] == s[..i] + [s[i]];
    UnescapeSnoc(s[..i], s[i], false);
    EscapeFlag(s, i);
  }

  /** The escape flag after reading a text. */
  function Pending(s: string, escaped: bool): bool
    decreases |s|
  {
    if s == [] then escaped else Pending(s[1..], !escaped && s[0] == '\\')
  }

  lemma {:induction false} UnescapeSnoc(s: string, c: char, escaped: bool)
    ensures Unescape(s + [c], escaped)
            == Unescape(s, escaped) + if c == '\\' && !Pending(s, escaped) then [] else [c]
    decreases |s|
  {
    if s == [] {
      assert s + [c] == [c];
    } else {
      assert (s + [c])[1..] == s[1..] + [c];
      UnescapeSnoc(s[1..], c, !escaped && s[0] == '\\');
    }
  }

  lemma {:induction false} PendingSnoc(s: string, c: char, escaped: bool)
    ensures Pending(s + [c], escaped) == (!Pending(s, escaped) && c == '\\')
    decreases |s|
  {
    if s == [] {
      assert s + [c] == [c];
    } else {
      assert (s + [c])[1..] == s[1..] + [c];
      PendingSnoc(s[1..], c, !escaped && s[0] == '\\');
    }
  }

  lemma {:induction false} EscapeFlag(s: string, i: nat)
    requires i <= |s|
    ensures Pending(s[..i], false) == Escaped(s, i)
    decreases i
  {
    if i > 0 {
      EscapeFlag(s, i - 1);
      assert s[..i] == s[..i - 1] + [s[i - 1]];
      PendingSnoc(s[..i - 1], s[i - 1], false);
    }
  }

  // ---------------------------------------------------------------- parsing

  /** Upper case, as far as it can spell URI: ASCII letters, and the dotless i. */
  function UpperChar(c: char): char {
    if 'a' <= c <= 'z' then (c as int - 32) as char else if c == '\U{131}' then 'I' else c
  }

  function Upper(s: string): (r: string)
    ensures |r| == |s|
  {
    seq(|s|, i requires 0 <= i < |s| => UpperChar(s[i]))
  }

  predicate IsUri(key: string) {
    Upper(Strip(key)) == "URI"
  }

  /** Text before and after the first equals sign. */
  function Partition(s: string): Option<(string, string)>
    decreases |s|
  {
    if s == [] then None
    else if s[0] == '=' then Some(([], s[1..]))
    else
      match Partition(s[1..])
      case None => None
      case Some((k, v)) => Some(([s[0]] + k, v))
  }

  function NonEmpty(s: string): Option<string> {
    if s == [] then None else Some(s)
  }

  function FirstUri(pairs: seq<string>): Option<string>
    decreases |pairs|
  {
    if pairs == [] then None
    else
      match Partition(pairs[0])
      case None => FirstUri(pairs[1..])
      case Some((key, value)) => if IsUri(key) then NonEmpty(Unquoted(value)) else FirstUri(pairs[1..])
  }

  function Identity(raw: Option<string>): Option<string> {
    if raw.None? || raw.value == [] || Strip(raw.value) == [] then None
    else FirstUri(Split(Split(raw.value, ',', OUTSIDE)[0], ';', OUTSIDE))
  }

  method ParseXfccIdentity(raw: Option<string>) returns (identity: Option<string>)
    ensures identity == Identity(raw)
  {
    if raw.None? || raw.value == [] || Strip(raw.value) == [] {
      return None;
    }
    var elements := SplitUnquoted(raw.value, ',');
    var pairs := SplitUnquoted(elements[0], ';');
    for i := 0 to |pairs|
      invariant FirstUri(pairs) == FirstUri(pairs[i..])
    {
      assert pairs[i..][1..] == pairs[i + 1..];
      var kv := Partition(pairs[i]);
      if kv.Some? && IsUri(kv.value.0) {
        var text := Unquote(kv.value.1);
        return NonEmpty(text);
      }
    }
    return None;
  }

  // ---------------------------------------------------------------- the printer

  /** A value as Envoy writes it: quoted and escaped, or bare when that is safe. */
  datatype Value = Quoted(text: string) | Bare(text: string)

  datatype Pair = Pair(key: string, value: Value)

  type Element = seq<Pair>

  function Escape(s: string): string {
    if s == [] then []
    else (if s[0] == '"' || s[0] == '\\' then ['\\', s[0]] else [s[0]]) + Escape(s[1..])
  }

  function PrintValue(v: Value): string {
    match v
    case Quoted(text) => ['"'] + Escape(text) + ['"']
    case Bare(text) => text
  }

  function PrintPair(p: Pair): string {
    p.key + ['='] + PrintValue(p.value)
  }

  function PrintPairs(e: Element): (parts: seq<string>)
    ensures |parts| == |e|
  {
    seq(|e|, i requires 0 <= i < |e| => PrintPair(e[i]))
  }

  function PrintElement(e: Element): string {
    Join(PrintPairs(e), ';')
  }

  function PrintElements(es: seq<Element>): (parts: seq<string>)
    ensures |parts| == |es|
  {
    seq(|es|, i requires 0 <= i < |es| => PrintElement(es[i]))
  }

  function Print(es: seq<Element>): string {
    Join(PrintElements(es), ',')
  }

  predicate Plain(s: string) {
    forall i :: 0 <= i < |s| ==> s[i] != ',' && s[i] != ';' && s[i] != '"' && s[i] != '\\'
  }

  /** Keys are plain and hold no equals sign; bare values are plain. */
  predicate Printable(e: Element) {
    forall i :: 0 <= i < |e| ==> Plain(e[i].key) && '=' !in e[i].key && (e[i].value.Bare? ==> Plain(e[i].value.text))
  }

  /** What a value stands for; blanks around a bare value do not count. */
  function Meaning(v: Value): string {
    match v
    case Quoted(text) => text
    case Bare(text) => Strip(text)
  }

  /** The key spells uri in any case, with nothing but blanks around it. */
  predicate SpellsUri(key: string, i: nat) {
    && i + 3 <= |key|
    && (forall k :: 0 <= k < i ==> IsSpace(key[k])) && (forall k :: i + 3 <= k < |key| ==> IsSpace(key[k]))
    && key[i] in {'u', 'U'} && key[i + 1] in {'r', 'R'} && key[i + 2] in {'i', 'I', '\U{131}'}
  }

  ghost predicate NamesUri(key: string) {
    exists i: nat :: SpellsUri(key, i)
  }

  /** The first URI of an element, none if that is empty. */
  ghost function UriOf(e: Element): Option<string>
    decreases |e|
  {
    if e == [] then None
    else if NamesUri(e[0].key) then NonEmpty(Meaning(e[0].value))
    else UriOf(e[1..])
  }

  // ---------------------------------------------------------------- stripping, exactly

  /** The blanks that strip removes, one by one. */
  lemma SpacesAre(c: char)
    ensures IsSpace(c) <==>
            c in {'\t', '\n', '\U{b}', '\U{c}', '\r', '\U{1c}', '\U{1d}', '\U{1e}', '\U{1f}', ' ', '\U{85}',
                  '\U{a0}', '\U{1680}', '\U{2000}', '\U{2001}', '\U{2002}', '\U{2003}', '\U{2004}', '\U{2005}',
                  '\U{2006}', '\U{2007}', '\U{2008}', '\U{2009}', '\U{200a}', '\U{2028}', '\U{2029}',
                  '\U{202f}', '\U{205f}', '\U{3000}'}
  {
  }

  lemma {:induction false} LeftMeans(s: string) returns (i: nat)
    ensures i <= |s| && StripLeft(s) == s[i..] && (forall k :: 0 <= k < i ==> IsSpace(s[k]))
    ensures i < |s| ==> !IsSpace(s[i])
  {
    i := 0;
    if s != [] && IsSpace(s[0]) {
      var j := LeftMeans(s[1..]);
      i := j + 1;
      forall k | 0 <= k < i ensures IsSpace(s[k]) {
        assert k > 0 ==> IsSpace(s[1..][k - 1]);
      }
    }
  }

  lemma {:induction false} RightMeans(s: string) returns (n: nat)
    ensures n <= |s| && StripRight(s) == s[..n] && (forall k :: n <= k < |s| ==> IsSpace(s[k]))
    ensures n > 0 ==> !IsSpace(s[n - 1])
  {
    n := |s|;
    if s != [] && IsSpace(s[|s| - 1]) {
      n := RightMeans(s[..|s| - 1]);
      forall k | n <= k < |s| ensures IsSpace(s[k]) {
        assert k < |s| - 1 ==> IsSpace(s[..|s| - 1][k]);
      }
    }
  }

  /** Stripping leaves the text from its first to its last character that is no blank. */
  lemma StripMeans(s: string) returns (i: nat, n: nat)
    ensures i <= n <= |s| && Strip(s) == s[i..n]
    ensures forall k :: 0 <= k < |s| && (k < i || n <= k) ==> IsSpace(s[k])
    ensures i < n ==> !IsSpace(s[i]) && !IsSpace(s[n - 1])
  {
    i := LeftMeans(s);
    var m := RightMeans(s[i..]);
    n := i + m;
    forall k | n <= k < |s| ensures IsSpace(s[k]) {
      assert s[i..][k - i] == s[k];
    }
  }

  /** The test on keys accepts every way to spell uri, and nothing else. */
  lemma KeyTestIsExact(key: string)
    ensures IsUri(key) <==> NamesUri(key)
  {
    var i, n := StripMeans(key);
    var core := key[i..n];
    if IsUri(key) {
      var up := Upper(core);
      assert up == "URI" && up[0] == 'U' && up[1] == 'R' && up[2] == 'I';
      assert up[0] == UpperChar(core[0]) && up[1] == UpperChar(core[1]) && up[2] == UpperChar(core[2]);
      UpperLetters(core[0]);
      UpperLetters(core[1]);
      UpperLetters(core[2]);
      assert SpellsUri(key, i);
    }
    if NamesUri(key) {
      var j: nat :| SpellsUri(key, j);
      UpperLetters(key[j]);
      UpperLetters(key[j + 1]);
      UpperLetters(key[j + 2]);
      assert i == j && n == j + 3;
      assert Upper(core) == "URI";
    }
  }

  lemma UpperLetters(c: char)
    ensures (UpperChar(c) == 'U' <==> c in {'u', 'U'}) && (UpperChar(c) == 'R' <==> c in {'r', 'R'})
    ensures UpperChar(c) == 'I' <==> c in {'i', 'I', '\U{131}'}
    ensures c in {'u', 'U', 'r', 'R', 'i', 'I', '\U{131}'} ==> !IsSpace(c)
  {
  }

  // ---------------------------------------------------------------- parsing undoes printing

  lemma {:induction false} PlainIsSealed(s: string, sep: char)
    requires Plain(s) && (sep == ',' || sep == ';')
    ensures Sealed(s, sep)
    decreases |s|
  {
    if s != [] {
      PlainIsSealed(s[1..], sep);
    }
  }

  lemma {:induction false} EscapedStaysQuoted(s: string, sep: char)
    ensures NoCut(Escape(s), sep, Scan(true, false)) && ScanAll(Escape(s), Scan(true, false)) == Scan(true, false)
    decreases |s|
  {
    if s != [] {
      EscapedStaysQuoted(s[1..], sep);
      var head := if s[0] == '"' || s[0] == '\\' then ['\\', s[0]] else [s[0]];
      ScanConcat(head, Escape(s[1..]), sep, Scan(true, false));
      if s[0] == '"' || s[0] == '\\' {
        assert head[1..] == [s[0]];
      }
    }
  }

  lemma ValueIsSealed(v: Value, sep: char)
    requires (v.Bare? ==> Plain(v.text)) && (sep == ',' || sep == ';')
    ensures Sealed(PrintValue(v), sep)
  {
    match v
    case Bare(text) => PlainIsSealed(text, sep);
    case Quoted(text) =>
      EscapedStaysQuoted(text, sep);
      ScanConcat(['"'] + Escape(text), ['"'], sep, OUTSIDE);
      ScanConcat(['"'], Escape(text), sep, OUTSIDE);
  }

  lemma PairIsSealed(p: Pair, sep: char)
    requires Plain(p.key) && (p.value.Bare? ==> Plain(p.value.text)) && (sep == ',' || sep == ';')
    ensures Sealed(PrintPair(p), sep)
  {
    PlainIsSealed(p.key, sep);
    ValueIsSealed(p.value, sep);
    ScanConcat(p.key + ['='], PrintValue(p.value), sep, OUTSIDE);
    ScanConcat(p.key, ['='], sep, OUTSIDE);
  }

  lemma ElementIsSealed(e: Element)
    requires Printable(e)
    ensures Sealed(PrintElement(e), ',')
    ensures e != [] ==> Split(PrintElement(e), ';', OUTSIDE) == PrintPairs(e)
  {
    forall i | 0 <= i < |e| ensures Sealed(PrintPair(e[i]), ',') && Sealed(PrintPair(e[i]), ';') {
      PairIsSealed(e[i], ',');
      PairIsSealed(e[i], ';');
    }
    JoinIsSealed(PrintPairs(e), ';', ',');
    if e != [] {
      SplitUndoesJoin(PrintPairs(e), ';');
    }
  }

  lemma {:induction false} UnescapeUndoesEscape(s: string)
    ensures Unescape(Escape(s), false) == s
    decreases |s|
  {
    if s != [] {
      UnescapeUndoesEscape(s[1..]);
      var rest := Escape(s[1..]);
      if s[0] == '"' || s[0] == '\\' {
        assert Escape(s) == ['\\'] + ([s[0]] + rest);
        assert ([s[0]] + rest)[1..] == rest;
        assert Escape(s)[1..] == [s[0]] + rest;
      } else {
        assert Escape(s)[1..] == rest;
      }
    }
  }

  lemma {:induction false} StripKeepsMembers(s: string)
    ensures forall c :: c in Strip(s) ==> c in s
  {
    LeftKeepsMembers(s);
    RightKeepsMembers(StripLeft(s));
  }

  lemma {:induction false} LeftKeepsMembers(s: string)
    ensures forall c :: c in StripLeft(s) ==> c in s
    ensures forall c :: c in s && !IsSpace(c) ==> c in StripLeft(s)
  {
    if s != [] && IsSpace(s[0]) {
      LeftKeepsMembers(s[1..]);
      assert s == [s[0]] + s[1..];
    }
  }

  lemma {:induction false} RightKeepsMembers(s: string)
    ensures forall c :: c in StripRight(s) ==> c in s
    ensures forall c :: c in s && !IsSpace(c) ==> c in StripRight(s)
  {
    if s != [] && IsSpace(s[|s| - 1]) {
      RightKeepsMembers(s[..|s| - 1]);
      assert s == s[..|s| - 1] + [s[|s| - 1]];
    }
  }

  lemma UnquoteUndoesPrint(v: Value)
    requires v.Bare? ==> Plain(v.text)
    ensures Unquoted(PrintValue(v)) == Meaning(v)
  {
    match v
    case Bare(text) =>
      StripKeepsMembers(text);
      var s := Strip(text);
      if |s| >= 2 {
        assert s[0] in s;
        var i :| 0 <= i < |text| && text[i] == s[0];
      }
    case Quoted(text) =>
      var s := PrintValue(v);
      UnescapeUndoesEscape(text);
      assert Strip(s) == s;
      assert s[1..|s| - 1] == Escape(text);
  }

  lemma {:induction false} PartitionAtFirst(key: string, rest: string)
    requires '=' !in key
    ensures Partition(key + ['='] + rest) == Some((key, rest))
    decreases |key|
  {
    var s := key + ['='] + rest;
    if key == [] {
      assert s == ['='] + rest;
    } else {
      assert s[1..] == key[1..] + ['='] + rest;
      PartitionAtFirst(key[1..], rest);
      assert [key[0]] + key[1..] == key;
    }
  }

  lemma {:induction false} FirstUriOfPrinted(e: Element)
    requires Printable(e)
    ensures FirstUri(PrintPairs(e)) == UriOf(e)
    decreases |e|
  {
    if e != [] {
      PartitionAtFirst(e[0].key, PrintValue(e[0].value));
      KeyTestIsExact(e[0].key);
      UnquoteUndoesPrint(e[0].value);
      FirstUriOfPrinted(e[1..]);
      assert PrintPairs(e)[1..] == PrintPairs(e[1..]);
    }
  }

  lemma {:induction false} JoinKeepsMembers(parts: seq<string>, sep: char, i: nat, c: char)
    requires i < |parts| && c in parts[i]
    ensures c in Join(parts, sep)
    decreases |parts|
  {
    if i > 0 {
      JoinKeepsMembers(parts[1..], sep, i - 1, c);
    }
  }

  /** A header that prints an element with pairs is not blank. */
  lemma PrintedIsNotBlank(es: seq<Element>)
    requires es != [] && es[0] != []
    ensures Print(es) != [] && Strip(Print(es)) != []
  {
    var p := PrintPair(es[0][0]);
    assert p[|es[0][0].key|] == '=';
    JoinKeepsMembers(PrintPairs(es[0]), ';', 0, '=');
    JoinKeepsMembers(PrintElements(es), ',', 0, '=');
    LeftKeepsMembers(Print(es));
    RightKeepsMembers(StripLeft(Print(es)));
  }

  /** Pair i is the first one whose key spells uri. */
  ghost predicate FirstUriAt(e: Element, i: nat) {
    i < |e| && NamesUri(e[i].key) && forall j :: 0 <= j < i ==> !NamesUri(e[j].key)
  }

  lemma {:induction false} UriOfIsFirst(e: Element, i: nat)
    ensures (forall j :: 0 <= j < |e| ==> !NamesUri(e[j].key)) ==> UriOf(e) == None
    ensures FirstUriAt(e, i) ==> UriOf(e) == NonEmpty(Meaning(e[i].value))
    decreases |e|
  {
    if e != [] {
      if !NamesUri(e[0].key) && i > 0 {
        UriOfIsFirst(e[1..], i - 1);
        if FirstUriAt(e, i) {
          assert FirstUriAt(e[1..], i - 1) by {
            assert forall j :: 0 <= j < i - 1 ==> e[1..][j] == e[j + 1];
          }
        }
      } else {
        UriOfIsFirst(e[1..], i);
      }
      assert forall j :: 0 <= j < |e[1..]| ==> e[1..][j] == e[j + 1];
    }
  }

  /** Parsing undoes printing: for any elements, the identity read back is the value of
      the first pair of the first element whose key spells uri; none if there is no such
      pair or its value is empty. Blanks around a bare value do not count. */
  lemma ParseUndoesPrint(es: seq<Element>, i: nat)
    requires forall k :: 0 <= k < |es| ==> Printable(es[k])
    ensures es == [] || (forall j :: 0 <= j < |es[0]| ==> !NamesUri(es[0][j].key)) ==> Identity(Some(Print(es))) == None
    ensures es != [] && FirstUriAt(es[0], i) ==>
              match es[0][i].value
              case Quoted(text) => Identity(Some(Print(es))) == if text == "" then None else Some(text)
              case Bare(text) => Identity(Some(Print(es))) == if Strip(text) == "" then None else Some(Strip(text))
  {
    ParseIsFirstUri(es);
    if es != [] {
      UriOfIsFirst(es[0], i);
    }
  }

  lemma ParseIsFirstUri(es: seq<Element>)
    requires forall i :: 0 <= i < |es| ==> Printable(es[i])
    ensures Identity(Some(Print(es))) == if es == [] then None else UriOf(es[0])
  {
    if es != [] {
      forall i | 0 <= i < |es| ensures Sealed(PrintElements(es)[i], ',') {
        ElementIsSealed(es[i]);
      }
      SplitUndoesJoin(PrintElements(es), ',');
      ElementIsSealed(es[0]);
      if es[0] != [] {
        PrintedIsNotBlank(es);
        FirstUriOfPrinted(es[0]);
      } else {
        assert PrintElement(es[0]) == [];
        assert FirstUri([[]]) == None by {
          assert Partition([]) == None;
        }
      }
    }
  }
}
