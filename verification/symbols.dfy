/** Symbol spelling, store keys and snapshot paths, and when they can be read back. */
module Symbols {
  import opened Wrappers

  // ---------------------------------------------------------------- string helpers

  /** White space as the library's trimming understands it. */
  predicate IsSpace(ch: char) {
    var code := ch as int;
    || 0x09 <= code <= 0x0D || code == 0x20 || code == 0x85 || code == 0xA0 || code == 0x1680
    || 0x2000 <= code <= 0x200A || code == 0x2028 || code == 0x2029 || code == 0x202F
    || code == 0x205F || code == 0x3000
  }

  function TrimLeft(s: string): string {
    if s != "" && IsSpace(s[0]) then TrimLeft(s[1..]) else s
  }

  function TrimRight(s: string): string {
    if s != "" && IsSpace(s[|s| - 1]) then TrimRight(s[..|s| - 1]) else s
  }

  function Trim(s: string): string {
    TrimRight(TrimLeft(s))
  }

  predicate Trimmed(s: string) {
    s == "" || (!IsSpace(s[0]) && !IsSpace(s[|s| - 1]))
  }

  predicate HasSuffix(s: string, suffix: string) {
    |suffix| <= |s| && s[|s| - |suffix|..] == suffix
  }

  /** Removes every underscore. */
  function Strip(s: string): string {
    if s == "" then "" else Kept(s[0]) + Strip(s[1..])
  }

  function Kept(ch: char): string {
    if ch == '_' then "" else [ch]
  }

  /** The index of the first ch in s, or |s| when there is none. */
  function IndexOf(s: string, ch: char): (i: nat)
    ensures i <= |s| && ch !in s[..i] && (i < |s| ==> s[i] == ch)
  {
    if s == "" || s[0] == ch then 0
    else
      var i := 1 + IndexOf(s[1..], ch);
      assert s[..i] == [s[0]] + s[1..][..i - 1];
      i
  }

  // ---------------------------------------------------------------- the modelled functions

  const SUFFIXES := ["USDT", "USDC", "BTC"]

  /** The first listed suffix wins; a symbol that is nothing but the suffix is left alone. */
  function SplitOff(s: string, suffixes: seq<string>): string {
    if suffixes == [] then s
    else if HasSuffix(s, suffixes[0]) then
      var base := s[..|s| - |suffixes[0]|];
      if base == "" then s else base + "_" + suffixes[0]
    else SplitOff(s, suffixes[1..])
  }

  function ToMEXC(s: string): string {
    SplitOff(Trim(s), SUFFIXES)
  }

  function ToFile(s: string): string {
    Trim(s)
  }

  function KeyFor(symbol: string, interval: string): string {
    symbol + ":" + interval
  }

  /** Splits a key at its first colon. */
  function SplitKey(key: string): Option<(string, string)> {
    var i := IndexOf(key, ':');
    if i == |key| then None else Some((key[..i], key[i + 1..]))
  }

  /** Path joining for plain elements: empty elements vanish. */
  function JoinTwo(a: string, b: string): string {
    if a == "" then b else if b == "" then a else a + "/" + b
  }

  function Join(base: string, interval: string, file: string): string {
    JoinTwo(JoinTwo(base, interval), file)
  }

  /** Where the start-up phase looks for a pair's file. */
  function BootstrapPath(base: string, fileSymbol: string, interval: string): string {
    Join(base, interval, ToFile(fileSymbol) + ".json")
  }

  datatype PathError = InvalidKey | EmptyFileSymbol

  /** Where the flusher writes an entry, resolved from the entry's own symbol and interval and
      falling back to its key. */
  function FilePathForEntry(base: string, key: string, symbol: string, interval: string): Result<string, PathError> {
    var wire, itv := Trim(symbol), Trim(interval);
    if (wire == "" || itv == "") && SplitKey(key).None? then Err(InvalidKey)
    else
      var wire' := if wire == "" then SplitKey(key).value.0 else wire;
      var itv' := if itv == "" then SplitKey(key).value.1 else itv;
      var fileSymbol := ToFile(Strip(wire'));
      if fileSymbol == "" then Err(EmptyFileSymbol) else Ok(Join(base, itv', fileSymbol + ".json"))
  }

  function TempPath(path: string): string {
    path + ".tmp"
  }

  // ---------------------------------------------------------------- trimming and stripping

  lemma {:induction false} TrimLeftFacts(s: string)
    ensures |TrimLeft(s)| <= |s|
    ensures TrimLeft(s) == "" || !IsSpace(TrimLeft(s)[0])
    ensures s != "" && !IsSpace(s[0]) ==> TrimLeft(s) == s
  {
    if s != "" && IsSpace(s[0]) {
      TrimLeftFacts(s[1..]);
    }
  }

  lemma {:induction false} TrimRightFacts(s: string)
    ensures |TrimRight(s)| <= |s|
    ensures TrimRight(s) == "" || !IsSpace(TrimRight(s)[|TrimRight(s)| - 1])
    ensures TrimRight(s) != "" ==> s != "" && TrimRight(s)[0] == s[0]
    ensures s != "" && !IsSpace(s[|s| - 1]) ==> TrimRight(s) == s
  {
    if s != "" && IsSpace(s[|s| - 1]) {
      TrimRightFacts(s[..|s| - 1]);
    }
  }

  lemma {:induction false} TrimFacts(s: string)
    ensures Trimmed(Trim(s)) && |Trim(s)| <= |s|
    ensures Trimmed(s) ==> Trim(s) == s
  {
    TrimLeftFacts(s);
    TrimRightFacts(TrimLeft(s));
  }

  /** Trimming takes away spaces at both ends, all of them, and nothing else. */
  lemma {:induction false} TrimTakesOuterSpaces(s: string) returns (before: string, after: string)
    ensures s == before + Trim(s) + after
    ensures forall ch :: ch in before || ch in after ==> IsSpace(ch)
    ensures Trim(s) != "" ==> !IsSpace(Trim(s)[0]) && !IsSpace(Trim(s)[|Trim(s)| - 1])
  {
    var left := TrimLeft(s);
    before := LeftSpaces(s);
    after := RightSpaces(left);
    TrimFacts(s);
  }

  lemma {:induction false} LeftSpaces(s: string) returns (before: string)
    ensures s == before + TrimLeft(s) && forall ch :: ch in before ==> IsSpace(ch)
  {
    before := "";
    if s != "" && IsSpace(s[0]) {
      var rest := LeftSpaces(s[1..]);
      before := [s[0]] + rest;
    }
  }

  lemma {:induction false} RightSpaces(s: string) returns (after: string)
    ensures s == TrimRight(s) + after && forall ch :: ch in after ==> IsSpace(ch)
  {
    after := "";
    if s != "" && IsSpace(s[|s| - 1]) {
      var n := |s| - 1;
      var rest := RightSpaces(s[..n]);
      after := rest + [s[n]];
    }
  }

  /** Among the ASCII characters the spaces are tab, the four line breaks and the blank. */
  lemma {:induction false} AsciiSpaces(ch: char)
    requires ch as int < 0x80
    ensures IsSpace(ch) <==> ch as int in {9, 10, 11, 12, 13, 32}
  {
  }

  lemma {:induction false} StripConcat(a: string, b: string)
    ensures Strip(a + b) == Strip(a) + Strip(b)
  {
    hide Kept;
    if a == "" {
      assert a + b == b;
    } else {
      StripConcat(a[1..], b);
      assert (a + b)[0] == a[0] && (a + b)[1..] == a[1..] + b;
      var head, x, y := Kept(a[0]), Strip(a[1..]), Strip(b);
      assert head + (x + y) == (head + x) + y;
    }
  }

  lemma {:induction false} StripShortens(s: string)
    ensures |Strip(s)| <= |s|
    ensures Strip(s) == s <==> '_' !in s
    ensures '_' in s ==> |Strip(s)| < |s|
  {
    if s != "" {
      StripShortens(s[1..]);
      assert s == [s[0]] + s[1..];
    }
  }

  // ---------------------------------------------------------------- the wire spelling

  /** w is t with one underscore put in front of its k-th listed suffix. */
  ghost predicate SplitAt(t: string, w: string, k: nat) {
    k < 3 && HasSuffix(t, SUFFIXES[k]) && |SUFFIXES[k]| < |t| && w == t[..|t| - |SUFFIXES[k]|] + "_" + SUFFIXES[k]
  }

  /** t is a listed suffix itself or ends in none of them. */
  ghost predicate Whole(t: string) {
    forall k :: 0 <= k < 3 ==> HasSuffix(t, SUFFIXES[k]) ==> t == SUFFIXES[k]
  }

  /** Two spellings only: the symbol itself, or one underscore in front of a listed suffix. */
  lemma {:induction false} WireShape(s: string) returns (k: nat)
    ensures var t, w := Trim(s), ToMEXC(s); if k < 3 then SplitAt(t, w, k) else w == t && Whole(t)
  {
    var t := Trim(s);
    k := FirstSuffix(t, SUFFIXES);
    if k < 3 {
      LastLetters(t, k);
      if |SUFFIXES[k]| == |t| {
        k := 3;
      }
    }
  }

  lemma {:induction false} FirstSuffix(t: string, suffixes: seq<string>) returns (k: nat)
    ensures k <= |suffixes| && forall j :: 0 <= j < k ==> !HasSuffix(t, suffixes[j])
    ensures k < |suffixes| ==> HasSuffix(t, suffixes[k])
    ensures SplitOff(t, suffixes) ==
            if k < |suffixes| && |suffixes[k]| < |t| then t[..|t| - |suffixes[k]|] + "_" + suffixes[k] else t
  {
    if suffixes == [] || HasSuffix(t, suffixes[0]) {
      k := 0;
    } else {
      k := FirstSuffix(t, suffixes[1..]);
      k := k + 1;
    }
  }

  /** The listed suffixes exclude one another. */
  lemma {:induction false} LastLetters(t: string, k: nat)
    requires k < 3 && HasSuffix(t, SUFFIXES[k])
    ensures forall j :: 0 <= j < 3 && HasSuffix(t, SUFFIXES[j]) ==> j == k
  {
    forall j | 0 <= j < 3 && HasSuffix(t, SUFFIXES[j]) ensures j == k {
      assert t[|t| - 1] == SUFFIXES[j][|SUFFIXES[j]| - 1] == SUFFIXES[k][|SUFFIXES[k]| - 1];
      assert t[|t| - 2] == SUFFIXES[j][|SUFFIXES[j]| - 2] == SUFFIXES[k][|SUFFIXES[k]| - 2];
    }
  }

  lemma {:induction false} StripDropsInserted(base: string, suffix: string)
    ensures Strip(base + "_" + suffix) == Strip(base + suffix)
  {
    StripUnderscore();
    hide Strip;
    StripConcat(base + "_", suffix);
    StripConcat(base, "_");
    StripConcat(base, suffix);
  }

  lemma {:induction false} StripUnderscore()
    ensures Strip("_") == ""
  {
    assert "_"[1..] == "";
  }

  /** Stripping works letter by letter: it drops underscores and keeps every other letter in place. */
  lemma {:induction false} StripDropsUnderscores(a: string, ch: char, b: string)
    ensures Strip("") == ""
    ensures Strip(a + [ch] + b) == (if ch == '_' then Strip(a) + Strip(b) else Strip(a) + [ch] + Strip(b))
  {
    StripLetter(ch);
    hide Strip;
    StripConcat(a + [ch], b);
    StripConcat(a, [ch]);
  }

  lemma {:induction false} StripLetter(ch: char)
    ensures Strip("") == "" && Strip([ch]) == if ch == '_' then "" else [ch]
  {
    assert [ch][1..] == "";
  }

  /** Removing underscores undoes the wire spelling exactly on underscore-free symbols. */
  lemma {:induction false} StripUndoesToMEXC(s: string)
    ensures Strip(ToMEXC(s)) == Strip(Trim(s))
    ensures Strip(ToMEXC(s)) == Trim(s) <==> '_' !in Trim(s)
  {
    var k := WireShape(s);
    var t := Trim(s);
    if k < 3 {
      var base := t[..|t| - |SUFFIXES[k]|];
      StripDropsInserted(base, SUFFIXES[k]);
      assert t == base + SUFFIXES[k];
    }
    StripShortens(t);
  }

  /** The wire spelling, case by case: one underscore in front of a quote currency the trimmed symbol
      ends in, unless nothing is left in front of it. */
  lemma {:induction false} WireSpelling(s: string, base: string)
    ensures base != "" && Trim(s) == base + "USDT" ==> ToMEXC(s) == base + "_USDT"
    ensures base != "" && Trim(s) == base + "USDC" ==> ToMEXC(s) == base + "_USDC"
    ensures base != "" && Trim(s) == base + "BTC" ==> ToMEXC(s) == base + "_BTC"
    ensures (forall quote :: quote in {"USDT", "USDC", "BTC"} ==>
               |Trim(s)| <= |quote| || Trim(s)[|Trim(s)| - |quote|..] != quote)
            ==> ToMEXC(s) == Trim(s)
  {
    hide Trim, ToMEXC;
    var k := WireShape(s);
    SpellingWith(s, base, k, 0);
    SpellingWith(s, base, k, 1);
    SpellingWith(s, base, k, 2);
    if k < 3 {
      assert SUFFIXES[k] in {"USDT", "USDC", "BTC"};
    }
  }

  lemma {:induction false} SpellingWith(s: string, base: string, k: nat, j: nat)
    requires j < 3 && var t, w := Trim(s), ToMEXC(s); if k < 3 then SplitAt(t, w, k) else w == t && Whole(t)
    ensures base != "" && Trim(s) == base + SUFFIXES[j] ==> ToMEXC(s) == base + ("_" + SUFFIXES[j])
  {
    hide Trim, ToMEXC;
    var t := Trim(s);
    if base != "" && t == base + SUFFIXES[j] {
      assert HasSuffix(t, SUFFIXES[j]);
      LastLetters(t, j);
    }
  }

  /** A wire symbol is already trimmed, and empty only for the empty symbol. */
  lemma {:induction false} WireIsTrimmed(s: string)
    ensures Trim(ToMEXC(s)) == ToMEXC(s)
    ensures ToMEXC(s) == "" <==> Trim(s) == ""
  {
    TrimFacts(s);
    var _ := WireShape(s);
    TrimFacts(ToMEXC(s));
  }

  /** Different symbols never share a wire spelling, whatever characters they contain. */
  lemma {:induction false} ToMEXCInjective(a: string, b: string)
    ensures ToMEXC(a) == ToMEXC(b) <==> Trim(a) == Trim(b)
  {
    var i := WireShape(a);
    var j := WireShape(b);
    var w := ToMEXC(a);
    if w == ToMEXC(b) {
      if i < 3 {
        SplitIsNotWhole(Trim(a), w, i);
      }
      if j < 3 {
        SplitIsNotWhole(Trim(b), w, j);
      }
      if i < 3 && j < 3 {
        UnsplitIsUnique(Trim(a), Trim(b), w, i, j);
      }
    }
  }

  lemma {:induction false} SplitIsNotWhole(t: string, w: string, k: nat)
    requires SplitAt(t, w, k)
    ensures HasSuffix(w, SUFFIXES[k]) && !Whole(w)
  {
    assert |w| > |SUFFIXES[k]|;
  }

  lemma {:induction false} UnsplitIsUnique(t: string, t': string, w: string, i: nat, j: nat)
    requires SplitAt(t, w, i) && SplitAt(t', w, j)
    ensures t == t'
  {
    SplitIsNotWhole(t, w, i);
    SplitIsNotWhole(t', w, j);
    LastLetters(w, i);
    var n := |SUFFIXES[i]|;
    assert |t| == |w| - 1 == |t'|;
    assert w[..|t| - n] == t[..|t| - n] && w[..|t| - n] == t'[..|t| - n];
    assert t == t[..|t| - n] + SUFFIXES[i] && t' == t'[..|t| - n] + SUFFIXES[i];
  }

  // ---------------------------------------------------------------- keys

  /** A key splits back into its two parts exactly when the symbol has no colon. */
  lemma {:induction false} KeySplitsBack(symbol: string, interval: string)
    ensures SplitKey(KeyFor(symbol, interval)) == Some((symbol, interval)) <==> ':' !in symbol
  {
    var key := KeyFor(symbol, interval);
    assert SplitKey(key).Some? ==> ':' !in SplitKey(key).value.0;
    if ':' !in symbol {
      IndexOfFirst(symbol, ':', interval);
      assert key[..|symbol|] == symbol && key[|symbol| + 1..] == interval;
    }
  }

  lemma {:induction false} IndexOfFirst(a: string, ch: char, b: string)
    requires ch !in a
    ensures IndexOf(a + [ch] + b, ch) == |a|
  {
    if a != "" {
      IndexOfFirst(a[1..], ch, b);
      assert (a + [ch] + b)[1..] == a[1..] + [ch] + b;
    }
  }

  /** A key with a single colon comes from one symbol and interval only. */
  lemma {:induction false} LoneColon(symbol: string, interval: string)
    ensures SplitKey(KeyFor(symbol, interval)).Some?
    ensures ':' !in SplitKey(KeyFor(symbol, interval)).value.1 ==>
              SplitKey(KeyFor(symbol, interval)) == Some((symbol, interval))
  {
    var key := KeyFor(symbol, interval);
    var i := IndexOf(key, ':');
    assert key[|symbol|] == ':' && key[..|symbol|] == symbol;
    if i < |symbol| {
      assert key[i + 1..][|symbol| - i - 1] == ':';
    } else {
      assert ':' !in symbol by {
        assert symbol == key[..i][..|symbol|];
      }
      KeySplitsBack(symbol, interval);
    }
  }

  /** Whatever names give a key that was built from colon-free parts are those parts. */
  lemma {:induction false} PlainKeyIsUnique(symbol: string, interval: string, s: string, i: string)
    requires ':' !in symbol && ':' !in interval && KeyFor(s, i) == KeyFor(symbol, interval)
    ensures s == symbol && i == interval
  {
    hide SplitKey, KeyFor;
    KeySplitsBack(symbol, interval);
    LoneColon(s, i);
  }

  lemma {:induction false} KeyForInjective(s: string, i: string, s': string, i': string)
    requires ':' !in s && ':' !in s'
    ensures KeyFor(s, i) == KeyFor(s', i') <==> s == s' && i == i'
  {
    KeySplitsBack(s, i);
    KeySplitsBack(s', i');
  }

  // ---------------------------------------------------------------- paths

  /** A symbol and an interval that can be elements of a path and parts of a key. */
  predicate Plain(s: string) {
    s != "" && '/' !in s && ':' !in s
  }

  predicate RegularSymbol(s: string) {
    Plain(Trim(s)) && '_' !in Trim(s)
  }

  predicate RegularInterval(i: string) {
    Plain(i) && Trimmed(i)
  }

  lemma {:induction false} JoinTwoInjective(base: string, a: string, b: string)
    requires a != "" && b != ""
    ensures JoinTwo(base, a) == JoinTwo(base, b) <==> a == b
  {
    if base != "" && JoinTwo(base, a) == JoinTwo(base, b) {
      assert (base + "/" + a)[|base| + 1..] == a && (base + "/" + b)[|base| + 1..] == b;
    }
  }

  lemma {:induction false} JoinIs(base: string, interval: string, file: string)
    requires file != ""
    ensures Join(base, interval, file) == (if base == "" then "" else base + "/")
                                          + (if interval == "" then "" else interval + "/") + file
  {
    assert base + "/" + interval + "/" + file == (base + "/") + (interval + "/") + file;
  }

  /** The path start-up reads: the base directory, a directory per interval, a file per symbol. */
  lemma {:induction false} BootstrapPathIs(base: string, s: string, interval: string)
    ensures BootstrapPath(base, s, interval)
            == (if base == "" then "" else base + "/") + (if interval == "" then "" else interval + "/")
               + Trim(s) + ".json"
    ensures TempPath(BootstrapPath(base, s, interval))
            == (if base == "" then "" else base + "/") + (if interval == "" then "" else interval + "/")
               + Trim(s) + ".json.tmp"
  {
    hide Trim, Join;
    var dir := (if base == "" then "" else base + "/") + (if interval == "" then "" else interval + "/");
    JoinIs(base, interval, Trim(s) + ".json");
    assert dir + (Trim(s) + ".json") == dir + Trim(s) + ".json";
    assert dir + Trim(s) + ".json" + ".tmp" == dir + Trim(s) + ".json.tmp";
  }

  /** The path the flusher writes, or why there is none, for a key with the parts a and b and for a key
      without a colon: blank names are taken from the key, underscores leave the symbol. */
  lemma {:induction false} FlushPathIs(base: string, key: string, symbol: string, interval: string, a: string,
                                       b: string)
    requires ':' in key ==> ':' !in a && key == a + ":" + b
    ensures FilePathForEntry(base, key, symbol, interval) ==
            if ':' !in key && (Trim(symbol) == "" || Trim(interval) == "") then Err(InvalidKey)
            else
              var wire := if Trim(symbol) == "" then a else Trim(symbol);
              var directory := if Trim(interval) == "" then b else Trim(interval);
              var file := Trim(Strip(wire));
              if file == "" then Err(EmptyFileSymbol)
              else Ok((if base == "" then "" else base + "/") + (if directory == "" then "" else directory + "/")
                      + file + ".json")
  {
    hide Trim, Strip, SplitKey, Join;
    SplitKeyIs(key, a, b);
    var wire := if Trim(symbol) == "" then a else Trim(symbol);
    var directory := if Trim(interval) == "" then b else Trim(interval);
    var file := Trim(Strip(wire));
    JoinIs(base, directory, file + ".json");
    var dir := (if base == "" then "" else base + "/") + (if directory == "" then "" else directory + "/");
    assert dir + (file + ".json") == dir + file + ".json";
  }

  lemma {:induction false} SplitKeyIs(key: string, a: string, b: string)
    requires ':' in key ==> ':' !in a && key == a + ":" + b
    ensures SplitKey(key) == if ':' in key then Some((a, b)) else None
  {
    if ':' in key {
      KeySplitsBack(a, b);
    } else if IndexOf(key, ':') < |key| {
      assert false;
    }
  }

  /** Different base directories, different files. */
  lemma {:induction false} BaseDirectoryMatters(base: string, base': string, s: string, interval: string)
    ensures BootstrapPath(base, s, interval) == BootstrapPath(base', s, interval) <==> base == base'
  {
    hide Trim, BootstrapPath;
    BootstrapPathIs(base, s, interval);
    BootstrapPathIs(base', s, interval);
    var dir := if interval == "" then "" else interval + "/";
    var tail := dir + Trim(s) + ".json";
    var front, front' := if base == "" then "" else base + "/", if base' == "" then "" else base' + "/";
    var p, p' := BootstrapPath(base, s, interval), BootstrapPath(base', s, interval);
    assert p == front + tail && p' == front' + tail;
    assert front == p[..|p| - |tail|] && front' == p'[..|p'| - |tail|];
    if front == front' && base != "" {
      assert base == front[..|base|] && base' == front'[..|base'|];
    }
  }

  /** The flusher writes where the start-up phase reads exactly for underscore-free symbols. */
  lemma {:induction false} FlushPathMeetsBootstrapPath(base: string, s: string, interval: string)
    requires Trim(s) != "" && RegularInterval(interval)
    ensures FilePathForEntry(base, KeyFor(ToMEXC(s), interval), ToMEXC(s), interval)
            == Ok(BootstrapPath(base, s, interval))
            <==> '_' !in Trim(s)
    ensures BootstrapPath(base, s, interval)
            == (if base == "" then "" else base + "/") + interval + "/" + Trim(s) + ".json"
  {
    BootstrapPathIs(base, s, interval);
    var dir := if base == "" then "" else base + "/";
    assert dir + (interval + "/") + Trim(s) + ".json" == dir + interval + "/" + Trim(s) + ".json";
    WireIsTrimmed(s);
    TrimFacts(interval);
    StripUndoesToMEXC(s);
    TrimFacts(s);
    var stripped := Strip(Trim(s));
    TrimFacts(stripped);
    StripShortens(Trim(s));
    TrimFacts(Trim(s));
    var resolved := FilePathForEntry(base, KeyFor(ToMEXC(s), interval), ToMEXC(s), interval);
    if resolved.Ok? {
      assert resolved.value == Join(base, interval, Trim(stripped) + ".json");
      JoinTwoInjective(JoinTwo(base, interval), Trim(stripped) + ".json", Trim(s) + ".json");
      if Trim(stripped) + ".json" == Trim(s) + ".json" {
        assert Trim(stripped) == (Trim(stripped) + ".json")[..|Trim(stripped)|];
        assert Trim(s) == (Trim(s) + ".json")[..|Trim(s)|];
      }
    }
  }

  lemma {:induction false} FooBar()
    ensures ToMEXC("FOO_BAR") == "FOO_BAR" && Strip("FOO_BAR") == "FOOBAR"
    ensures Trim("FOO_BAR") == "FOO_BAR" && Trim("FOOBAR") == "FOOBAR" && Trim("Min1") == "Min1"
  {
    hide Trim, Strip;
    TrimFacts("FOO_BAR");
    TrimFacts("FOOBAR");
    TrimFacts("Min1");
    forall k | 0 <= k < 3 ensures !HasSuffix("FOO_BAR", SUFFIXES[k]) {
      assert "FOO_BAR"[6] != SUFFIXES[k][|SUFFIXES[k]| - 1];
    }
    var k := WireShape("FOO_BAR");
    StripDropsInserted("FOO", "BAR");
    StripShortens("FOOBAR");
    assert "FOO" + "_" + "BAR" == "FOO_BAR" && "FOO" + "BAR" == "FOOBAR";
  }

  /** A symbol with an underscore: flushed to one file, looked for in another. */
  lemma {:induction false} UnderscoredSymbolIsMisplaced(base: string)
    ensures var dir := if base == "" then "" else base + "/";
            && FilePathForEntry(base, KeyFor(ToMEXC("FOO_BAR"), "Min1"), ToMEXC("FOO_BAR"), "Min1")
               == Ok(dir + "Min1/FOOBAR.json")
            && BootstrapPath(base, "FOO_BAR", "Min1") == dir + "Min1/FOO_BAR.json"
            && dir + "Min1/FOOBAR.json" != dir + "Min1/FOO_BAR.json"
  {
    hide Trim, Strip, ToMEXC, FilePathForEntry, BootstrapPath;
    FooBar();
    var dir := if base == "" then "" else base + "/";
    FlushPathIs(base, KeyFor("FOO_BAR", "Min1"), "FOO_BAR", "Min1", "FOO_BAR", "Min1");
    BootstrapPathIs(base, "FOO_BAR", "Min1");
    assert dir + ("Min1" + "/") + "FOOBAR" + ".json" == dir + "Min1/FOOBAR.json";
    assert dir + ("Min1" + "/") + "FOO_BAR" + ".json" == dir + "Min1/FOO_BAR.json";
    assert (dir + "Min1/FOOBAR.json")[|dir| + 8] != (dir + "Min1/FOO_BAR.json")[|dir| + 8];
  }

  lemma {:induction false} InvalidKeyIff(base: string, key: string, symbol: string, interval: string)
    ensures FilePathForEntry(base, key, symbol, interval) == Err(InvalidKey)
            <==> (Trim(symbol) == "" || Trim(interval) == "") && ':' !in key
  {
    hide Trim, Strip;
    if IndexOf(key, ':') == |key| {
      assert key[..|key|] == key;
    }
  }

  /** A blank name stands for the part of the key it was built from. */
  lemma {:induction false} BlankNamesFallBack(base: string, symbol: string, interval: string, s: string, i: string)
    requires ':' !in symbol && Trim(symbol) == symbol != "" && Trim(interval) == interval != ""
    requires (s == symbol || Trim(s) == "") && (i == interval || Trim(i) == "")
    ensures FilePathForEntry(base, KeyFor(symbol, interval), s, i)
            == FilePathForEntry(base, KeyFor(symbol, interval), symbol, interval)
  {
    hide Trim, Strip, SplitKey, KeyFor;
    KeySplitsBack(symbol, interval);
  }

  /** Distinct pairs get distinct files. */
  lemma {:induction false} DistinctPairsDistinctFiles(base: string, s: string, i: string, s': string, i': string)
    requires RegularInterval(i) && RegularInterval(i')
    ensures BootstrapPath(base, s, i) == BootstrapPath(base, s', i') <==> Trim(s) == Trim(s') && i == i'
  {
    hide Trim, Trimmed;
    var f, f' := Trim(s) + ".json", Trim(s') + ".json";
    if BootstrapPath(base, s, i) == BootstrapPath(base, s', i') {
      var x, x' := i + "/" + f, i' + "/" + f';
      assert BootstrapPath(base, s, i) == JoinTwo(base, x) && BootstrapPath(base, s', i') == JoinTwo(base, x') by {
        if base != "" {
          assert base + "/" + i + "/" + f == base + "/" + x;
          assert base + "/" + i' + "/" + f' == base + "/" + x';
        }
      }
      JoinTwoInjective(base, x, x');
      IndexOfFirst(i, '/', f);
      IndexOfFirst(i', '/', f');
      assert i == x[..|i|] && i' == x'[..|i'|];
      assert f == x[|i| + 1..] && f' == x'[|i'| + 1..];
      assert Trim(s) == f[..|f| - 5] && Trim(s') == f'[..|f'| - 5];
    }
  }

  /** A temporary file is never mistaken for a data file. */
  lemma {:induction false} TempIsNoDataFile(base: string, s: string, i: string, path: string)
    ensures TempPath(path) != BootstrapPath(base, s, i)
  {
    var p := BootstrapPath(base, s, i);
    assert p[|p| - 1] == 'n' && TempPath(path)[|TempPath(path)| - 1] == 'p';
  }
}
