/** Reading options from a line of text and writing them back
    (app/sources/Options.cpp, ProcessConfigLine and GetGenerationOptions). */
module Options {
  import opened StringHelper

  /** One parameter: the characters line[lo..hi]. */
  datatype Slice = Slice(lo: nat, hi: nat, quoted: bool)

  // ----- The tokenizer as a function of the position

  /** A quote that no backslash precedes. */
  predicate EndsQuote(line: string, i: nat) {
    0 < i < |line| && line[i] == '"' && line[i - 1] != '\\'
  }

  /** The first such quote at or after `pos`, or |line|. */
  function ClosingQuote(line: string, pos: nat): (p: nat)
    requires 1 <= pos <= |line|
    ensures pos <= p <= |line|
    ensures forall i :: pos <= i < p ==> !EndsQuote(line, i)
    ensures p < |line| ==> EndsQuote(line, p)
    decreases |line| - pos
  {
    if pos == |line| || EndsQuote(line, pos) then pos
    else ClosingQuote(line, pos + 1)
  }

  /** The parameters from `pos` on, or the position after an opening quote that is never
      closed. */
  function Scan(line: string, pos: nat): (r: Result<seq<Slice>, nat>)
    requires pos <= |line|
    decreases |line| - pos
  {
    if pos == |line| then Ok([])
    else if line[pos] == ' ' then Scan(line, pos + 1)
    else if line[pos] == '"' then
      var d := ClosingQuote(line, pos + 1);
      if d == |line| then Err(pos + 1) else Push(Slice(pos + 1, d, true), Scan(line, d + 1))
    else
      var d := Find(line, ' ', pos);
      Push(Slice(pos, d, false), Scan(line, if d == |line| then d else d + 1))
  }

  function Push<T, E>(x: T, r: Result<seq<T>, E>): Result<seq<T>, E> {
    match r
    case Ok(xs) => Ok([x] + xs)
    case Err(e) => Err(e)
  }

  function Text(line: string, s: Slice): string {
    if s.lo <= s.hi <= |line| then line[s.lo..s.hi] else ""
  }

  function Texts(line: string, slices: seq<Slice>): seq<string> {
    if slices == [] then [] else [Text(line, slices[0])] + Texts(line, slices[1..])
  }

  lemma TextsPush(line: string, s: Slice, rest: seq<Slice>)
    ensures Texts(line, [s] + rest) == [Text(line, s)] + Texts(line, rest)
  {
    assert ([s] + rest)[1..] == rest;
  }

  // ----- What the slices are

  /** A quoted parameter lies between two quotes and holds only escaped ones; any other
      one is a non-empty run without spaces that does not begin with a quote. */
  ghost predicate WellCut(line: string, s: Slice) {
    && s.lo <= s.hi <= |line|
    && if s.quoted then
         && 1 <= s.lo && line[s.lo - 1] == '"' && EndsQuote(line, s.hi)
         && forall i :: s.lo <= i < s.hi ==> !EndsQuote(line, i)
       else
         && s.lo < s.hi && line[s.lo] != '"'
         && (s.hi < |line| ==> line[s.hi] == ' ')
         && forall i :: s.lo <= i < s.hi ==> line[i] != ' '
  }

  ghost predicate AllWellCut(line: string, pos: nat, slices: seq<Slice>) {
    forall k :: 0 <= k < |slices| ==> WellCut(line, slices[k]) && pos <= slices[k].lo
  }

  ghost predicate InOrder(slices: seq<Slice>) {
    forall j, k :: 0 <= j < k < |slices| ==> slices[j].hi < slices[k].lo
  }

  /** Position `i` belongs to slice `s` or is one of the two quotes around it. */
  ghost predicate Touches(s: Slice, i: int) {
    s.lo <= i < s.hi || (s.quoted && (i == s.lo - 1 || i == s.hi))
  }

  /** Position `i` holds a space unless a slice touches it. */
  ghost predicate Accounted(line: string, slices: seq<Slice>, i: nat)
    requires i < |line|
  {
    line[i] == ' ' || exists k :: 0 <= k < |slices| && Touches(slices[k], i)
  }

  /** `slices` cuts line[pos..] in order and without overlap, leaving out nothing but
      spaces and delimiting quotes. */
  ghost predicate IsTokenization(line: string, pos: nat, slices: seq<Slice>) {
    && AllWellCut(line, pos, slices)
    && InOrder(slices)
    && forall i :: pos <= i < |line| ==> Accounted(line, slices, i)
  }

  lemma PushAccounted(line: string, s: Slice, rest: seq<Slice>, i: nat)
    requires i < |line|
    requires line[i] == ' ' || Touches(s, i) || Accounted(line, rest, i)
    ensures Accounted(line, [s] + rest, i)
  {
    var all := [s] + rest;
    if Touches(s, i) {
      assert all[0] == s;
    } else if line[i] != ' ' {
      var k :| 0 <= k < |rest| && Touches(rest[k], i);
      assert all[k + 1] == rest[k];
    }
  }

  lemma PushTokenization(line: string, pos: nat, next: nat, s: Slice, rest: seq<Slice>)
    requires WellCut(line, s) && pos <= s.lo && s.hi < next <= |line|
    requires IsTokenization(line, next, rest)
    requires forall i :: pos <= i < next ==> Touches(s, i) || line[i] == ' '
    ensures IsTokenization(line, pos, [s] + rest)
  {
    var all := [s] + rest;
    assert AllWellCut(line, pos, all);
    assert InOrder(all) by {
      forall j, k | 0 <= j < k < |all| ensures all[j].hi < all[k].lo {
        assert all[k] == rest[k - 1];
      }
    }
    forall i | pos <= i < |line| ensures Accounted(line, all, i) {
      PushAccounted(line, s, rest, i);
    }
  }

  /** The tokenizer either cuts the line as described or stops at a quote that nothing closes. */
  lemma {:induction false} ScanTokenizes(line: string, pos: nat)
    requires pos <= |line|
    ensures Scan(line, pos).Ok? ==> IsTokenization(line, pos, Scan(line, pos).value)
    ensures Scan(line, pos).Err? ==> NeverCloses(line, pos, Scan(line, pos).error)
    decreases |line| - pos
  {
    if pos == |line| {
    } else if line[pos] == ' ' {
      ScanTokenizes(line, pos + 1);
    } else if line[pos] == '"' {
      QuotedTokenizes(line, pos);
    } else {
      BareTokenizes(line, pos);
    }
  }

  /** A quote stands right before `p` and every later one is escaped. */
  ghost predicate NeverCloses(line: string, pos: nat, p: nat) {
    && pos < p <= |line| && line[p - 1] == '"'
    && forall i :: p <= i < |line| ==> !EndsQuote(line, i)
  }

  lemma {:induction false} QuotedTokenizes(line: string, pos: nat)
    requires pos < |line| && line[pos] == '"'
    ensures Scan(line, pos).Ok? ==> IsTokenization(line, pos, Scan(line, pos).value)
    ensures Scan(line, pos).Err? ==> NeverCloses(line, pos, Scan(line, pos).error)
    decreases |line| - pos, 0
  {
    var d := ClosingQuote(line, pos + 1);
    if d < |line| {
      ScanTokenizes(line, d + 1);
      if Scan(line, d + 1).Ok? {
        PushTokenization(line, pos, d + 1, Slice(pos + 1, d, true), Scan(line, d + 1).value);
      }
    }
  }

  lemma {:induction false} BareTokenizes(line: string, pos: nat)
    requires pos < |line| && line[pos] != '"' && line[pos] != ' '
    ensures Scan(line, pos).Ok? ==> IsTokenization(line, pos, Scan(line, pos).value)
    ensures Scan(line, pos).Err? ==> NeverCloses(line, pos, Scan(line, pos).error)
    decreases |line| - pos, 0
  {
    var d := Find(line, ' ', pos);
    var s := Slice(pos, d, false);
    if d < |line| {
      ScanTokenizes(line, d + 1);
      if Scan(line, d + 1).Ok? {
        PushTokenization(line, pos, d + 1, s, Scan(line, d + 1).value);
      }
    } else {
      assert Scan(line, pos) == Push(s, Scan(line, |line|)) && [s] + [] == [s];
      forall i | pos <= i < |line| ensures Accounted(line, [s], i) {
        assert [s][0] == s && Touches(s, i);
      }
    }
  }

  // ----- The scanner itself

  lemma SkipToQuote(line: string, p: nat, q: nat)
    requires 1 <= p <= q <= |line|
    requires forall i :: p <= i < q ==> line[i] != '"'
    ensures ClosingQuote(line, p) == ClosingQuote(line, q)
    decreases q - p
  {
    if p < q { SkipToQuote(line, p + 1, q); }
  }

  /** What a scan at `pos` adds to the parameters found so far. */
  function Extend(found: seq<string>, line: string, pos: nat): Result<seq<string>, nat>
    requires pos <= |line|
  {
    match Scan(line, pos)
    case Ok(slices) => Ok(found + Texts(line, slices))
    case Err(p) => Err(p)
  }

  lemma ExtendPush(found: seq<string>, line: string, pos: nat, s: Slice, next: nat)
    requires pos <= |line| && next <= |line|
    requires Scan(line, pos) == Push(s, Scan(line, next))
    ensures Extend(found, line, pos) == Extend(found + [Text(line, s)], line, next)
  {
    if Scan(line, next).Ok? {
      var rest := Scan(line, next).value;
      TextsPush(line, s, rest);
      assert found + ([Text(line, s)] + Texts(line, rest)) == (found + [Text(line, s)]) + Texts(line, rest);
    }
  }

  /** The search for the end of a quoted parameter: quotes after a backslash are passed over. */
  method FindClosingQuote(line: string, curPos: nat) returns (delimPos: nat, foundDelim: bool)
    requires 1 <= curPos <= |line|
    ensures delimPos == ClosingQuote(line, curPos)
    ensures foundDelim == (delimPos < |line|)
  {
    delimPos := curPos;
    foundDelim := false;
    while !foundDelim
      invariant curPos <= delimPos <= |line|
      invariant ClosingQuote(line, curPos) == ClosingQuote(line, delimPos)
      invariant foundDelim ==> delimPos < |line| && ClosingQuote(line, curPos) == delimPos
      decreases !foundDelim, |line| - delimPos
    {
      var next := Find(line, '"', delimPos);
      SkipToQuote(line, delimPos, next);
      delimPos := next;
      if delimPos < |line| {
        if line[delimPos - 1] == '\\' {
          delimPos := delimPos + 1;
        } else {
          foundDelim := true;
        }
      } else {
        return;
      }
    }
  }

  lemma TakeQuoted(found: seq<string>, line: string, pos: nat)
    requires pos < |line| && line[pos] == '"'
    ensures var d := ClosingQuote(line, pos + 1);
            Extend(found, line, pos) ==
            if d == |line| then Err(pos + 1) else Extend(found + [line[pos + 1..d]], line, d + 1)
  {
    var d := ClosingQuote(line, pos + 1);
    if d < |line| { ExtendPush(found, line, pos, Slice(pos + 1, d, true), d + 1); }
  }

  lemma TakeBare(found: seq<string>, line: string, pos: nat)
    requires pos < |line| && line[pos] != '"' && line[pos] != ' '
    ensures var d := Find(line, ' ', pos);
            Extend(found, line, pos) == Extend(found + [line[pos..d]], line, if d == |line| then d else d + 1)
  {
    var d := Find(line, ' ', pos);
    ExtendPush(found, line, pos, Slice(pos, d, false), if d == |line| then d else d + 1);
  }

  /** Appends the parameters found on `line` to `params`; fails with the position after a
      quote that is not closed. */
  lemma TakeSpace(found: seq<string>, line: string, pos: nat)
    requires pos < |line| && line[pos] == ' '
    ensures Extend(found, line, pos) == Extend(found, line, pos + 1)
  {
  }

  lemma TakeEnd(found: seq<string>, line: string)
    ensures Extend(found, line, |line|) == Ok(found)
  {
    assert found + [] == found;
  }

  method ProcessConfigLine(line: string, params: seq<string>) returns (r: Result<seq<string>, nat>)
    ensures r == Extend(params, line, 0)
  {
    hide Extend, Scan, Find, ClosingQuote;
    var curPos, len := 0, |line|;
    var all := params;
    while curPos < len
      invariant curPos <= len
      invariant Extend(params, line, 0) == Extend(all, line, curPos)
    {
      if line[curPos] == ' ' {
        TakeSpace(all, line, curPos);
        curPos := curPos + 1;
      } else {
        var delimPos;
        if line[curPos] == '"' {
          TakeQuoted(all, line, curPos);
          curPos := curPos + 1;
          var foundDelim;
          delimPos, foundDelim := FindClosingQuote(line, curPos);
          if !foundDelim {
            return Err(curPos);
          }
        } else {
          TakeBare(all, line, curPos);
          delimPos := Find(line, ' ', curPos);
        }
        var param;
        if delimPos < len {
          param := line[curPos..delimPos];
          curPos := delimPos + 1;
        } else {
          param := line[curPos..];
          assert param == line[curPos..delimPos];
          curPos := len;
        }
        all := all + [param];
      }
    }
    TakeEnd(all, line);
    r := Ok(all);
  }

  /** The parameters on a line, if its quotes are closed. */
  function Tokenize(line: string): Option<seq<string>> {
    TokensFrom(line, 0)
  }

  function TokensFrom(line: string, pos: nat): Option<seq<string>>
    requires pos <= |line|
  {
    match Scan(line, pos)
    case Ok(slices) => Some(Texts(line, slices))
    case Err(_) => None
  }

  function Prepend<T>(x: T, xs: Option<seq<T>>): Option<seq<T>> {
    match xs
    case Some(ys) => Some([x] + ys)
    case None => None
  }

  lemma TokensPush(line: string, pos: nat, s: Slice, next: nat)
    requires pos <= |line| && next <= |line|
    requires Scan(line, pos) == Push(s, Scan(line, next))
    ensures TokensFrom(line, pos) == Prepend(Text(line, s), TokensFrom(line, next))
  {
    if Scan(line, next).Ok? { TextsPush(line, s, Scan(line, next).value); }
  }

  // ----- Writing options

  predicate IsSpecial(c: char) {
    c == ' ' || c == '\t' || c == '=' || c == '&' || c == '|' || c == ',' || c == ';' || c == '^' ||
    c == '%' || c == '@' || c == '$' || c == '!' || c == '#' || c == '*' || c == '?' || c == '(' ||
    c == ')' || c == '{' || c == '}' || c == '[' || c == ']' || c == '<' || c == '>' || c == '\\'
  }

  /** These are the characters of the list in the source. */
  lemma SpecialsAreThese(c: char)
    ensures IsSpecial(c) <==> c in " \t=&|,;^%@$!#*?(){}[]<>\\"
  {
    assert " \t=&|,;^%@$!#*?(){}[]<>\\" == " \t=&|,;^%@$!" + "#*?(){}[]<>\\";
  }

  predicate NeedsQuotes(option: string) {
    exists i :: 0 <= i < |option| && IsSpecial(option[i])
  }

  function QuotifyOption(option: string): string {
    if NeedsQuotes(option) then "\"" + option + "\"" else option
  }

  predicate QuotesEscaped(w: string)
    requires w != ""
  {
    w[0] != '"' && forall i :: 0 < i < |w| ==> !EndsQuote(w, i)
  }

  /** Exactly the parameters that writing and reading back preserves. */
  predicate Survives(w: string) {
    w != "" && if NeedsQuotes(w) then QuotesEscaped(w) && w[|w| - 1] != '\\' else w[0] != '"'
  }

  function Quotified(ws: seq<string>): (qs: seq<string>)
    ensures |qs| == |ws|
    ensures forall i :: 0 <= i < |ws| ==> qs[i] == QuotifyOption(ws[i])
  {
    if ws == [] then [] else [QuotifyOption(ws[0])] + Quotified(ws[1..])
  }

  function Printed(ws: seq<string>): string {
    Join(Quotified(ws), " ")
  }

  /** The state of the option parser that ends up in generated files. */
  class OptionValues {
    var interpretAsCpp: bool
    var languageStandard: string
    var underlyingTypedef: bool
    var typeOverrides: seq<string>

    /** The options as a parameter list. */
    function GenerationTokens(): seq<string>
      reads this
    {
      FlagTokens(interpretAsCpp, languageStandard, underlyingTypedef) + OverrideTokens(typeOverrides)
    }

    method GetGenerationOptions() returns (ret: string)
      ensures ret == Printed(GenerationTokens())
    {
      hide QuotifyOption, OptionText, Printed, OverridesText;
      ret := "";
      if interpretAsCpp {
        ret := ret + "-x ";
      }
      if languageStandard != "" {
        ret := ret + OptionText("-s", languageStandard);
      }
      if underlyingTypedef {
        ret := ret + "-u ";
      }
      ghost var flags := FlagsText(interpretAsCpp, languageStandard, underlyingTypedef);
      assert ret == flags;
      NoOverrides(flags, typeOverrides);
      for i := 0 to |typeOverrides|
        invariant ret == flags + OverridesText(typeOverrides[..i])
      {
        OneMoreOverride(flags, typeOverrides, i);
        ret := ret + OptionText("-t", typeOverrides[i]);
      }
      assert typeOverrides[..|typeOverrides|] == typeOverrides;
      PrintedDropsLastSpace(interpretAsCpp, languageStandard, underlyingTypedef, typeOverrides);
      if ret != "" {
        ret := ret[..|ret| - 1];
      }
    }
  }

  function OverridesText(overrides: seq<string>): string {
    if overrides == [] then ""
    else OverridesText(overrides[..|overrides| - 1]) + OptionText("-t", overrides[|overrides| - 1])
  }

  lemma NoOverrides(flags: string, overrides: seq<string>)
    ensures flags + OverridesText(overrides[..0]) == flags
  {
  }

  lemma OneMoreOverride(flags: string, overrides: seq<string>, i: nat)
    requires i < |overrides|
    ensures flags + OverridesText(overrides[..i + 1]) ==
            (flags + OverridesText(overrides[..i])) + OptionText("-t", overrides[i])
  {
    hide OptionText;
    assert overrides[..i + 1][..i] == overrides[..i];
    Regroup(flags, OverridesText(overrides[..i]), OptionText("-t", overrides[i]));
  }

  /** A flag and its argument, with the space that follows. */
  function OptionText(flag: string, argument: string): string {
    flag + " " + QuotifyOption(argument) + " "
  }

  function FlagTokens(cpp: bool, std: string, underlying: bool): seq<string> {
    (if cpp then ["-x"] else []) + (if std != "" then ["-s", std] else []) + (if underlying then ["-u"] else [])
  }

  function OverrideTokens(overrides: seq<string>): seq<string> {
    if overrides == [] then [] else ["-t", overrides[0]] + OverrideTokens(overrides[1..])
  }

  lemma OverrideTokensAppend(overrides: seq<string>, last: string)
    ensures OverrideTokens(overrides + [last]) == OverrideTokens(overrides) + ["-t", last]
  {
    if overrides != [] {
      assert (overrides + [last])[1..] == overrides[1..] + [last];
    }
  }

  /** Every word followed by a space: the text before its last space is deleted. */
  ghost function Spaced(ws: seq<string>): string {
    if ws == [] then "" else Spaced(ws[..|ws| - 1]) + (QuotifyOption(ws[|ws| - 1]) + " ")
  }

  lemma SpacedAppend(ws: seq<string>, w: string)
    ensures Spaced(ws + [w]) == Spaced(ws) + (QuotifyOption(w) + " ")
  {
    assert (ws + [w])[..|ws|] == ws;
  }

  lemma SpacedOption(ws: seq<string>, flag: string, w: string)
    requires QuotifyOption(flag) == flag
    ensures Spaced(ws + [flag, w]) == Spaced(ws) + OptionText(flag, w)
  {
    SpacedAppend(ws, flag);
    SpacedAppend(ws + [flag], w);
    assert ws + [flag, w] == (ws + [flag]) + [w];
    RegroupPairs(Spaced(ws), flag + " ", QuotifyOption(w), " ");
  }

  lemma {:induction false} SpacedConcat(a: seq<string>, b: seq<string>)
    ensures Spaced(a + b) == Spaced(a) + Spaced(b)
    decreases |b|
  {
    hide QuotifyOption;
    if b == [] {
      assert a + b == a;
    } else {
      var front, last := b[..|b| - 1], b[|b| - 1];
      SpacedConcat(a, front);
      assert a + b == (a + front) + [last];
      SpacedAppend(a + front, last);
      Regroup(Spaced(a), Spaced(front), QuotifyOption(last) + " ");
    }
  }

  lemma SpacedFlag(flag: string, given: bool)
    requires QuotifyOption(flag) == flag
    ensures Spaced(if given then [flag] else []) == if given then flag + " " else ""
  {
    SpacedAppend([], flag);
  }

  lemma FlagTexts()
    ensures "-x" + " " == "-x " && "-u" + " " == "-u "
  {
  }

  lemma SpacedStandard(std: string)
    ensures Spaced(if std != "" then ["-s", std] else []) == if std != "" then OptionText("-s", std) else ""
  {
    FlagsStayBare();
    hide QuotifyOption, OptionText;
    SpacedOption([], "-s", std);
    assert [] + ["-s", std] == ["-s", std] && "" + OptionText("-s", std) == OptionText("-s", std);
  }

  lemma SpacedFlags(cpp: bool, std: string, underlying: bool)
    ensures Spaced(FlagTokens(cpp, std, underlying)) == FlagsText(cpp, std, underlying)
  {
    hide QuotifyOption, Spaced, OptionText, Survives, NeedsQuotes, QuotesEscaped;
    FlagsStayBare();
    FlagTexts();
    SpacedFlag("-x", cpp);
    SpacedStandard(std);
    SpacedFlag("-u", underlying);
    var a, b := if cpp then ["-x"] else [], if std != "" then ["-s", std] else [];
    SpacedConcat(a, b);
    SpacedConcat(a + b, if underlying then ["-u"] else []);
  }

  lemma {:induction false} SpacedOverrides(head: seq<string>, overrides: seq<string>)
    ensures Spaced(head + OverrideTokens(overrides)) == Spaced(head) + OverridesText(overrides)
    decreases |overrides|
  {
    hide QuotifyOption, Spaced, OptionText, OverrideTokens;
    if overrides == [] {
      assert OverrideTokens([]) == [] by { NoOverrideTokens(); }
      assert head + [] == head;
      assert Spaced(head) + "" == Spaced(head);
    } else {
      var before, last := overrides[..|overrides| - 1], overrides[|overrides| - 1];
      SpacedOverrides(head, before);
      FlagsStayBare();
      assert OverrideTokens(overrides) == OverrideTokens(before) + ["-t", last] by {
        assert overrides == before + [last];
        OverrideTokensAppend(before, last);
      }
      SpacedOption(head + OverrideTokens(before), "-t", last);
      Regroup(head, OverrideTokens(before), ["-t", last]);
      Regroup(Spaced(head), OverridesText(before), OptionText("-t", last));
    }
  }

  lemma NoOverrideTokens()
    ensures OverrideTokens([]) == []
  {
  }

  function FlagsText(cpp: bool, std: string, underlying: bool): string {
    (if cpp then "-x " else "") + (if std != "" then OptionText("-s", std) else "") + (if underlying then "-u " else "")
  }

  lemma PrintedDropsLastSpace(cpp: bool, std: string, underlying: bool, overrides: seq<string>)
    ensures var all := FlagsText(cpp, std, underlying) + OverridesText(overrides);
            Printed(FlagTokens(cpp, std, underlying) + OverrideTokens(overrides)) ==
            if all == "" then "" else all[..|all| - 1]
  {
    SpacedFlags(cpp, std, underlying);
    SpacedOverrides(FlagTokens(cpp, std, underlying), overrides);
    SpacedIsPrinted(FlagTokens(cpp, std, underlying) + OverrideTokens(overrides));
  }

  lemma QuotifiedConcat(a: seq<string>, b: seq<string>)
    ensures Quotified(a + b) == Quotified(a) + Quotified(b)
  {
  }

  lemma PrintedAppend(ws: seq<string>, w: string)
    ensures Printed(ws + [w]) == if ws == [] then QuotifyOption(w) else Printed(ws) + " " + QuotifyOption(w)
  {
    assert Quotified([w]) == [QuotifyOption(w)];
    QuotifiedConcat(ws, [w]);
    JoinConcat(Quotified(ws), [QuotifyOption(w)], " ");
  }

  lemma MoveSpace(a: string, b: string, sp: string)
    ensures (a + sp) + (b + sp) == (a + sp + b) + sp
  {
  }

  lemma {:induction false} SpacedIsPrinted(ws: seq<string>)
    ensures Spaced(ws) == if ws == [] then "" else Printed(ws) + " "
    decreases |ws|
  {
    if ws != [] {
      var front, w := ws[..|ws| - 1], ws[|ws| - 1];
      SpacedIsPrinted(front);
      assert ws == front + [w];
      PrintedAppend(front, w);
      MoveSpace(Printed(front), QuotifyOption(w), " ");
    }
  }

  lemma FlagsStayBare()
    ensures QuotifyOption("-x") == "-x" && QuotifyOption("-s") == "-s"
    ensures QuotifyOption("-u") == "-u" && QuotifyOption("-t") == "-t"
    ensures Survives("-x") && Survives("-s") && Survives("-u") && Survives("-t")
  {
  }

  // ----- Reading back what was written

  /** `q` is what `line` holds from `off` on. */
  ghost predicate TailAt(line: string, off: nat, q: string) {
    |line| == off + |q| && forall i :: 0 <= i < |q| ==> line[off + i] == q[i]
  }

  lemma {:induction false} ClosingQuoteShift(line: string, off: nat, q: string, k: nat)
    requires TailAt(line, off, q) && 1 <= k <= |q|
    ensures ClosingQuote(line, off + k) == off + ClosingQuote(q, k)
    decreases |q| - k
  {
    if k < |q| {
      assert line[off + k] == q[k] && line[off + (k - 1)] == q[k - 1];
      if !EndsQuote(q, k) {
        ClosingQuoteShift(line, off, q, k + 1);
      }
    }
  }

  lemma {:induction false} FindShift(line: string, off: nat, q: string, c: char, k: nat)
    requires TailAt(line, off, q) && k <= |q|
    ensures Find(line, c, off + k) == off + Find(q, c, k)
    decreases |q| - k
  {
    if k < |q| {
      assert line[off + k] == q[k];
      if q[k] != c {
        FindShift(line, off, q, c, k + 1);
      }
    }
  }

  lemma TextShift(line: string, off: nat, q: string, s: Slice)
    requires TailAt(line, off, q) && s.lo <= s.hi <= |q|
    ensures Text(line, Slice(off + s.lo, off + s.hi, s.quoted)) == Text(q, s)
  {
    assert line[off + s.lo..off + s.hi] == q[s.lo..s.hi];
  }

  /** What follows a position decides the parameters found from there. */
  lemma {:induction false} TokensShift(line: string, off: nat, q: string, k: nat)
    requires TailAt(line, off, q) && k <= |q|
    ensures TokensFrom(line, off + k) == TokensFrom(q, k)
    decreases |q| - k
  {
    if k == |q| {
    } else if q[k] == ' ' {
      assert line[off + k] == ' ';
      TokensShift(line, off, q, k + 1);
    } else if q[k] == '"' {
      QuotedShift(line, off, q, k);
    } else {
      BareShift(line, off, q, k);
    }
  }

  lemma ScanQuotedAt(line: string, pos: nat)
    requires pos < |line| && line[pos] == '"'
    ensures var d := ClosingQuote(line, pos + 1);
            Scan(line, pos) == if d == |line| then Err(pos + 1) else Push(Slice(pos + 1, d, true), Scan(line, d + 1))
  {
  }

  lemma {:induction false} QuotedShift(line: string, off: nat, q: string, k: nat)
    requires TailAt(line, off, q) && k < |q| && q[k] == '"'
    ensures TokensFrom(line, off + k) == TokensFrom(q, k)
    decreases |q| - k, 1
  {
    hide ClosingQuote;
    assert line[off + k] == '"';
    ClosingQuoteShift(line, off, q, k + 1);
    var d := ClosingQuote(q, k + 1);
    ScanQuotedAt(q, k);
    ScanQuotedAt(line, off + k);
    hide Scan, Texts;
    if d < |q| {
      ShiftPush(line, off, q, k, Slice(k + 1, d, true), d + 1);
    }
  }

  lemma {:induction false} BareShift(line: string, off: nat, q: string, k: nat)
    requires TailAt(line, off, q) && k < |q| && q[k] != '"' && q[k] != ' '
    ensures TokensFrom(line, off + k) == TokensFrom(q, k)
    decreases |q| - k, 1
  {
    assert line[off + k] == q[k];
    FindShift(line, off, q, ' ', k);
    var d := Find(q, ' ', k);
    ShiftPush(line, off, q, k, Slice(k, d, false), if d == |q| then d else d + 1);
  }

  lemma {:induction false} ShiftPush(line: string, off: nat, q: string, k: nat, s: Slice, next: nat)
    requires TailAt(line, off, q) && k < next <= |q| && s.lo <= s.hi <= |q|
    requires Scan(q, k) == Push(s, Scan(q, next))
    requires Scan(line, off + k) == Push(Slice(off + s.lo, off + s.hi, s.quoted), Scan(line, off + next))
    ensures TokensFrom(line, off + k) == TokensFrom(q, k)
    decreases |q| - k, 0
  {
    hide Scan, Push, Texts;
    TokensShift(line, off, q, next);
    TokensPush(q, k, s, next);
    TokensPush(line, off + k, Slice(off + s.lo, off + s.hi, s.quoted), off + next);
    TextShift(line, off, q, s);
  }

  /** No parameter ever begins with a quote. */
  lemma {:induction false} TokensNeverStartWithQuote(line: string, pos: nat)
    requires pos <= |line| && TokensFrom(line, pos).Some?
    ensures forall t :: t in TokensFrom(line, pos).value ==> t == "" || t[0] != '"'
    decreases |line| - pos
  {
    if pos == |line| {
    } else if line[pos] == ' ' {
      TokensNeverStartWithQuote(line, pos + 1);
    } else if line[pos] == '"' {
      var d := ClosingQuote(line, pos + 1);
      TokensNeverStartWithQuote(line, d + 1);
      TokensPush(line, pos, Slice(pos + 1, d, true), d + 1);
      assert pos + 1 < d ==> !EndsQuote(line, pos + 1);
    } else {
      var d := Find(line, ' ', pos);
      var next := if d == |line| then d else d + 1;
      TokensNeverStartWithQuote(line, next);
      TokensPush(line, pos, Slice(pos, d, false), next);
    }
  }

  /** What stands between a printed option and the next one. */
  ghost predicate Separated(tail: string) {
    tail != "" ==> tail[0] == ' '
  }

  ghost function AfterSpace(tail: string): string {
    if tail == "" then "" else tail[1..]
  }

  lemma AfterToken(line: string, pos: nat, tail: string)
    requires TailAt(line, pos, tail) && Separated(tail)
    ensures pos <= |line| && TokensFrom(line, pos) == Tokenize(AfterSpace(tail))
  {
    if tail != "" {
      assert line[pos] == tail[0];
      TokensShift(line, pos, tail, 1);
      assert TailAt(tail, 1, tail[1..]);
      TokensShift(tail, 1, tail[1..], 0);
    }
  }

  /** Text between quotes that holds no quote of its own but escaped ones. */
  predicate CanBeQuoted(w: string) {
    w == "" || (QuotesEscaped(w) && w[|w| - 1] != '\\')
  }

  function QuotedLine(w: string, tail: string): string {
    "\"" + w + "\"" + tail
  }

  lemma QuotedLineAt(w: string, tail: string)
    ensures var line := QuotedLine(w, tail);
            && |line| == |w| + 2 + |tail| && line[0] == line[|w| + 1] == '"'
            && (forall i :: 0 <= i < |w| ==> line[i + 1] == w[i])
            && line[1..|w| + 1] == w && TailAt(line, |w| + 2, tail)
  {
  }

  /** The quote that closes is the one put there, exactly if the text can be quoted. */
  lemma ClosesAtEnd(w: string, tail: string)
    ensures var line := QuotedLine(w, tail);
            CanBeQuoted(w) <==> ClosingQuote(line, 1) == |w| + 1 < |line|
  {
    hide ClosingQuote, QuotedLine;
    QuotedLineAt(w, tail);
    var line := QuotedLine(w, tail);
    var d := ClosingQuote(line, 1);
    forall i | 0 < i <= |w| ensures EndsQuote(line, i) == if i == 1 then w[0] == '"' else EndsQuote(w, i - 1) {
      assert line[i] == line[(i - 1) + 1] == w[i - 1];
      if i > 1 { assert line[i - 1] == line[(i - 2) + 1] == w[i - 2]; }
    }
    if w != "" {
      assert line[|w|] == line[(|w| - 1) + 1] == w[|w| - 1];
      assert EndsQuote(line, |w| + 1) == (w[|w| - 1] != '\\');
      if QuotesEscaped(w) {
        if w[|w| - 1] != '\\' { NoQuoteBefore(line, |w| + 1); }
      } else if w[0] == '"' {
        assert EndsQuote(line, 1);
      } else {
        var i :| 0 < i < |w| && EndsQuote(w, i);
        assert EndsQuote(line, i + 1);
      }
    } else {
      assert EndsQuote(line, 1);
    }
  }

  lemma NoQuoteBefore(line: string, p: nat)
    requires 1 <= p < |line| && EndsQuote(line, p) && forall i :: 1 <= i < p ==> !EndsQuote(line, i)
    ensures ClosingQuote(line, 1) == p
  {
  }

  lemma QuotedTextIsRead(w: string, tail: string)
    requires CanBeQuoted(w) && Separated(tail)
    ensures Tokenize(QuotedLine(w, tail)) == Prepend(w, Tokenize(AfterSpace(tail)))
  {
    hide Scan, QuotedLine, Separated, AfterSpace, CanBeQuoted, ClosingQuote;
    var line := QuotedLine(w, tail);
    QuotedLineAt(w, tail);
    ClosesAtEnd(w, tail);
    ScanQuotedAt(line, 0);
    var d := |w| + 1;
    AfterToken(line, d + 1, tail);
    TokensPush(line, 0, Slice(1, d, true), d + 1);
  }

  /** Quoted text that cannot be quoted is not read back, whatever follows it. */
  lemma UnquotableIsLost(w: string, tail: string)
    requires !CanBeQuoted(w)
    ensures var read := Tokenize(QuotedLine(w, tail)); read.Some? ==> read.value != [] && read.value[0] != w
  {
    hide Scan, QuotedLine, CanBeQuoted, ClosingQuote;
    var line := QuotedLine(w, tail);
    QuotedLineAt(w, tail);
    ClosesAtEnd(w, tail);
    ScanQuotedAt(line, 0);
    var d := ClosingQuote(line, 1);
    if d < |line| { TokensPush(line, 0, Slice(1, d, true), d + 1); }
  }

  lemma QuotedIsRead(w: string, tail: string)
    requires Survives(w) && NeedsQuotes(w) && Separated(tail)
    ensures Tokenize("\"" + w + "\"" + tail) == Prepend(w, Tokenize(AfterSpace(tail)))
  {
    hide NeedsQuotes, Tokenize, QuotesEscaped, Separated, AfterSpace;
    QuotedTextIsRead(w, tail);
  }

  /** A parameter that is read without quotes. */
  predicate IsBareWord(w: string) {
    w != "" && ' ' !in w && w[0] != '"'
  }

  lemma BareLineAt(w: string, tail: string)
    requires IsBareWord(w) && Separated(tail)
    ensures var line := w + tail;
            && Find(line, ' ', 0) == |w| && line[0] == w[0] != ' ' && line[0..|w|] == w && TailAt(line, |w|, tail)
  {
    var line := w + tail;
    forall i | 0 <= i < |w| ensures line[i] != ' ' {
      assert line[i] == w[i];
    }
    assert tail != "" ==> line[|w|] == tail[0];
  }

  lemma ScanBare(line: string)
    requires line != "" && line[0] != '"' && line[0] != ' '
    ensures var d := Find(line, ' ', 0);
            Scan(line, 0) == Push(Slice(0, d, false), Scan(line, if d == |line| then d else d + 1))
  {
  }

  lemma BareIsRead(w: string, tail: string)
    requires Survives(w) && !NeedsQuotes(w) && Separated(tail)
    ensures Tokenize(w + tail) == Prepend(w, Tokenize(AfterSpace(tail)))
  {
    hide Tokenize;
    assert ' ' !in w by { forall i | 0 <= i < |w| ensures w[i] != ' ' { assert !IsSpecial(w[i]); } }
    hide NeedsQuotes;
    WordIsRead(w, tail);
  }

  lemma WordIsRead(w: string, tail: string)
    requires IsBareWord(w) && Separated(tail)
    ensures Tokenize(w + tail) == Prepend(w, Tokenize(AfterSpace(tail)))
  {
    hide Find, Scan, TokensFrom;
    var line := w + tail;
    BareLineAt(w, tail);
    ScanBare(line);
    var next := if |w| == |line| then |w| else |w| + 1;
    AfterToken(line, |w|, tail);
    AfterBare(line, |w|);
    TokensPush(line, 0, Slice(0, |w|, false), next);
  }

  /** The space that ends a bare parameter is skipped. */
  lemma AfterBare(line: string, d: nat)
    requires d <= |line| && (d < |line| ==> line[d] == ' ')
    ensures TokensFrom(line, d) == TokensFrom(line, if d == |line| then d else d + 1)
  {
  }

  /** An option that does not survive is not read back: an empty one leaves only what follows it,
      and no other is the first that is read, whatever follows. */
  lemma CasualtyIsLost(w: string, tail: string)
    requires !Survives(w)
    ensures var read := Tokenize(QuotifyOption(w) + tail);
            if w == "" then read == Tokenize(tail) else read.Some? ==> read.value == [] || read.value[0] != w
  {
    hide NeedsQuotes, Tokenize, QuotesEscaped;
    if w == "" {
      assert !NeedsQuotes("") by { EmptyStaysBare(); }
      assert "" + tail == tail;
    } else if NeedsQuotes(w) {
      UnquotableIsLost(w, tail);
    } else {
      NoQuoteIsRead(w + tail);
    }
  }

  lemma EmptyStaysBare()
    ensures !NeedsQuotes("")
  {
  }

  lemma NoQuoteIsRead(line: string)
    ensures var read := Tokenize(line);
            read.Some? && read.value != [] ==> read.value[0] == "" || read.value[0][0] != '"'
  {
    if Tokenize(line).Some? { TokensNeverStartWithQuote(line, 0); }
  }

  // ----- What separates options

  /** The manual has options separated by white space; it is only spaces that do. */
  lemma OnlySpacesSeparate(a: string, c: char, b: string)
    requires IsBareWord(a) && IsBareWord(b)
    ensures Tokenize(a + [c] + b) == Some([a, b]) <==> c == ' '
  {
    hide Tokenize;
    WordIsRead(a, "");
    WordIsRead(b, "");
    NothingIsRead();
    if c == ' ' {
      assert a + [c] + b == a + (" " + b);
      WordIsRead(a, " " + b);
      assert b + "" == b && [b] + [] == [b] && [a] + [b] == [a, b];
    } else {
      var w := a + [c] + b;
      assert w[0] == a[0] && ' ' !in w;
      WordIsRead(w, "");
      assert w + "" == w && [w] + [] == [w];
    }
  }

  // ----- Escaping by hand

  /** The text with a backslash before each quote, as the manual tells the user to write it. */
  function Escaped(w: string): string {
    if w == "" then "" else (if w[0] == '"' then "\\\"" else [w[0]]) + Escaped(w[1..])
  }

  lemma {:induction false} EscapedShape(w: string)
    ensures var e := Escaped(w);
            && (w != "" ==> e != "" && e[|e| - 1] == w[|w| - 1] && QuotesEscaped(e))
            && (if '"' in w then |e| > |w| else e == w)
  {
    if w != "" {
      var head, rest := if w[0] == '"' then "\\\"" else [w[0]], Escaped(w[1..]);
      EscapedShape(w[1..]);
      var e := Escaped(w);
      assert e == head + rest && w == [w[0]] + w[1..];
      forall i | 0 < i < |e| ensures !EndsQuote(e, i) {
        if i >= |head| {
          assert e[i] == rest[i - |head|];
          if i > |head| { assert e[i - 1] == rest[i - |head| - 1] && !EndsQuote(rest, i - |head|); }
        }
      }
      if w[1..] != "" { assert e[|e| - 1] == rest[|rest| - 1]; }
    }
  }

  /** Text escaped by hand and quoted is read as one parameter exactly if it does not end in a
      backslash. The backslashes stay, so it is the text itself only if there was nothing to escape. */
  lemma EscapedIsRead(w: string)
    ensures Tokenize(QuotedLine(Escaped(w), "")) == Some([Escaped(w)]) <==> w == "" || w[|w| - 1] != '\\'
    ensures Tokenize(QuotedLine(Escaped(w), "")) == Some([w]) <==> '"' !in w && (w == "" || w[|w| - 1] != '\\')
  {
    hide QuotesEscaped, QuotedLine, Escaped, Tokenize;
    EscapedShape(w);
    if w == "" || w[|w| - 1] != '\\' {
      NothingEscaped();
      assert CanBeQuoted(Escaped(w));
      QuotedTextIsRead(Escaped(w), "");
      NothingIsRead();
      assert [Escaped(w)] + [] == [Escaped(w)];
      assert [Escaped(w)][0] == Escaped(w) && [w][0] == w;
    } else {
      BackslashesStayAtEnd(w);
    }
  }

  lemma NothingEscaped()
    ensures Escaped("") == ""
  {
  }

  lemma NothingIsRead()
    ensures Tokenize("") == Some([])
  {
  }

  /** A final backslash escapes the closing quote, and nothing is read at all. */
  lemma BackslashesStayAtEnd(w: string)
    requires w != "" && w[|w| - 1] == '\\'
    ensures Tokenize(QuotedLine(Escaped(w), "")) == None
  {
    hide QuotedLine, ClosingQuote, Scan, Escaped;
    var e := Escaped(w);
    var line := QuotedLine(e, "");
    EscapedShape(w);
    QuotedLineAt(e, "");
    forall i | 1 <= i < |line| ensures !EndsQuote(line, i) {
      assert line[i - 1] == if i == 1 then '"' else line[(i - 2) + 1];
      if i <= |e| { assert line[i] == line[(i - 1) + 1] == e[i - 1] && (i > 1 ==> !EndsQuote(e, i - 1)); }
    }
    ScanQuotedAt(line, 0);
  }

  /** The manual's own example of escaping (MANUAL.md, "Configuration Files"), as the user means it. */
  const MANUAL_EXAMPLE := "const std::string &=String~($+\"#\").c_str()"

  /** Written as the manual says, such text is not what the parser gets; and given to the parser as
      it is meant, it is lost when the options are written into a file and read back. */
  lemma UnescapedQuoteFails(w: string, i: nat, j: nat)
    requires 0 < i < |w| && w[i] == '"' && w[i - 1] != '\\' && j < |w| && IsSpecial(w[j])
    ensures Tokenize(QuotedLine(Escaped(w), "")) != Some([w])
    ensures Tokenize(Printed(["-t", w])) != Some(["-t", w])
  {
    hide Escaped, Tokenize, QuotedLine, Printed, IsSpecial;
    EscapedIsRead(w);
    assert EndsQuote(w, i) && NeedsQuotes(w);
    assert !Survives(w);
    PrintedIsReadBack(["-t", w]);
    assert ["-t", w][1] == w && w in ["-t", w];
  }

  lemma ManualExampleFails()
    ensures Tokenize(QuotedLine(Escaped(MANUAL_EXAMPLE), "")) != Some([MANUAL_EXAMPLE])
    ensures Tokenize(Printed(["-t", MANUAL_EXAMPLE])) != Some(["-t", MANUAL_EXAMPLE])
  {
    hide Escaped, Tokenize, QuotedLine, Printed;
    UnescapedQuoteFails(MANUAL_EXAMPLE, 30, 5);
  }

  lemma PrintedCons(w: string, rest: seq<string>)
    ensures Printed([w] + rest) == QuotifyOption(w) + (if rest == [] then "" else " " + Printed(rest))
  {
    assert ([w] + rest)[1..] == rest;
    Regroup(QuotifyOption(w), " ", Printed(rest));
  }

  lemma FirstTokenOfWord(w: string, tail: string)
    requires w != "" && w[0] != '"'
    ensures var read := Tokenize(QuotifyOption(w) + tail); read.Some? && read.value != [] ==> read.value[0] != ""
  {
    var line := QuotifyOption(w) + tail;
    if NeedsQuotes(w) {
      assert line[1] == w[0] && !EndsQuote(line, 1);
      var d := ClosingQuote(line, 1);
      if d < |line| { TokensPush(line, 0, Slice(1, d, true), d + 1); }
    } else {
      assert line[0] == w[0] && !IsSpecial(w[0]);
      var d := Find(line, ' ', 0);
      TokensPush(line, 0, Slice(0, d, false), if d == |line| then d else d + 1);
    }
  }

  /** When no word begins with a quote, the first parameter read is not empty. */
  lemma {:induction false} FirstTokenIsNotEmpty(ws: seq<string>)
    requires forall w :: w in ws ==> w == "" || w[0] != '"'
    ensures var read := Tokenize(Printed(ws)); read.Some? && read.value != [] ==> read.value[0] != ""
  {
    if ws != [] {
      var w, rest := ws[0], ws[1..];
      var tail := if rest == [] then "" else " " + Printed(rest);
      assert ws == [w] + rest;
      PrintedCons(w, rest);
      if w == "" {
        FirstTokenIsNotEmpty(rest);
        assert QuotifyOption(w) + tail == tail && AfterSpace(tail) == Printed(rest);
        AfterToken(tail, 0, tail);
      } else {
        FirstTokenOfWord(w, tail);
      }
    }
  }

  /** Writing a list of parameters on one line and reading the line gives the list back
      exactly when each of them survives quoting. */
  lemma {:induction false} PrintedIsReadBack(ws: seq<string>)
    ensures Tokenize(Printed(ws)) == Some(ws) <==> forall w :: w in ws ==> Survives(w)
  {
    if ws == [] {
    } else {
      var w, rest := ws[0], ws[1..];
      var tail := if rest == [] then "" else " " + Printed(rest);
      assert ws == [w] + rest && AfterSpace(tail) == Printed(rest);
      PrintedCons(w, rest);
      PrintedIsReadBack(rest);
      if Survives(w) {
        if NeedsQuotes(w) { QuotedIsRead(w, tail); } else { BareIsRead(w, tail); }
      } else {
        UnreadableHead(ws);
      }
    }
  }

  lemma UnreadableHead(ws: seq<string>)
    requires ws != [] && !Survives(ws[0])
    ensures Tokenize(Printed(ws)) != Some(ws)
  {
    var w, rest := ws[0], ws[1..];
    assert ws == [w] + rest;
    PrintedCons(w, rest);
    if Tokenize(Printed(ws)) == Some(ws) {
      TokensNeverStartWithQuote(Printed(ws), 0);
      if w == "" {
        FirstTokenIsNotEmpty(ws);
      } else {
        CasualtyIsLost(w, if rest == [] then "" else " " + Printed(rest));
      }
    }
  }

  /** The generation options written into a file are read back as the same parameters
      exactly when the language standard (if any) and every override survive quoting. */
  lemma GenerationOptionsAreReadBack(cpp: bool, std: string, underlying: bool, overrides: seq<string>)
    ensures var tokens := FlagTokens(cpp, std, underlying) + OverrideTokens(overrides);
            Tokenize(Printed(tokens)) == Some(tokens) <==>
            (std == "" || Survives(std)) && forall o :: o in overrides ==> Survives(o)
  {
    FlagsStayBare();
    OverrideTokenMembers(overrides);
    PrintedIsReadBack(FlagTokens(cpp, std, underlying) + OverrideTokens(overrides));
  }

  lemma OverrideTokenMembers(overrides: seq<string>)
    ensures forall t :: t in OverrideTokens(overrides) <==> t in overrides || (overrides != [] && t == "-t")
  {
  }
}
