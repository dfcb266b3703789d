/**
 Pipeline.Process (pkg/nts/pipeline.go): the in-place passes one after the other on one buffer.
 The collapsing of test output is not part of this model, nor is the time a run takes.
 */
module Pipeline {
  import opened Wrappers
  import opened Buffer
  import Ansi
  import CarriageReturn
  import Boilerplate
  import Whitespace
  import Dedup

  datatype Category = Generic | FileRead | FileWrite | OtherCategory

  datatype Config = Config(enabled: bool, stripANSI: bool, resolveCR: bool, stripBoilerplate: bool, normalizeWhitespace: bool,
                           deduplicateLines: bool, dedupThreshold: int, preserveFileReads: bool, preserveFileWrites: bool)

  datatype Reduction = Reduction(originalBytes: nat, reducedBytes: nat, bytesSaved: int, tokensSaved: int, bypassed: bool,
                                 bypassReason: string)

  /** NewPipeline. */
  function WithDefaults(c: Config): Config {
    if c.dedupThreshold <= 0 then c.(dedupThreshold := 3) else c
  }

  /** Why a text is left alone, or "". */
  function BypassReason(c: Config, category: Category, len: nat): string {
    if !c.enabled || len == 0 then "disabled_or_empty"
    else if category == FileRead && c.preserveFileReads then "category_file_read"
    else if category == FileWrite && c.preserveFileWrites then "category_file_write"
    else ""
  }

  /** The passes before duplicate lines are collapsed. */
  function Compacted(c: Config, s: string): string {
    var s1 := if c.stripANSI then Ansi.Strip(s) else s;
    var s2 := if c.resolveCR then CarriageReturn.Resolve("", s1) else s1;
    var s3 := if c.stripBoilerplate then Boilerplate.Stripped(s2, false) else s2;
    if c.normalizeWhitespace then Whitespace.Normalized(s3) else s3
  }

  /**
   What collapsing repeated lines makes of the compacted text: nothing when it has no run to collapse,
   otherwise a shorter text that begins with the first such run replaced by its notice.
   */
  ghost predicate Deduplicated(threshold: int, s: string, out: string, note: Option<Dedup.Collapse>) {
    && (if threshold > 1 then Dedup.IsFirst(s, |s|, threshold, note) else note.None?)
    && match note
       case None => out == s
       case Some(k) =>
         var notice := Dedup.Notice(k.times, k.newline);
         |out| < |s| && k.first <= |s| && k.first + |notice| <= |out| && out[..k.first + |notice|] == s[..k.first] + notice
  }

  class Pipeline {
    const config: Config

    /** NewPipeline. */
    constructor (c: Config)
      ensures config == WithDefaults(c) && config.dedupThreshold > 0
    {
      config := WithDefaults(c);
    }

    method Process(b: array<char>, len: nat, category: Category) returns (r: Reduction, ghost note: Option<Dedup.Collapse>)
      requires len <= b.Length
      modifies b
      ensures r.originalBytes == len && r.reducedBytes <= len && b[len..] == old(b[len..])
      ensures r.bypassed <==> BypassReason(config, category, len) != ""
      ensures r.bypassReason == BypassReason(config, category, len)
      ensures r.bypassed ==> b[..] == old(b[..]) && r.reducedBytes == len
      ensures !r.bypassed && !config.deduplicateLines ==> b[..r.reducedBytes] == Compacted(config, old(b[..len]))
      ensures !r.bypassed && config.deduplicateLines ==>
                Deduplicated(config.dedupThreshold, Compacted(config, old(b[..len])), b[..r.reducedBytes], note)
      ensures r.bytesSaved == len - r.reducedBytes && 4 * r.tokensSaved >= r.bytesSaved > 4 * r.tokensSaved - 4
    {
      var reason := BypassReason(config, category, len);
      note := None;
      if reason != "" {
        return Reduction(len, len, 0, 0, true, reason), None;
      }
      hide *;
      var n := RunPasses(config, b, len);
      if config.deduplicateLines {
        n, note := CollapseLines(b, n, len, config.dedupThreshold);
      }
      var saved := len - n;
      r := Reduction(len, n, saved, if saved > 0 then (saved + 3) / 4 else 0, false, "");
    }
  }

  /** Pass 5. */
  method CollapseLines(b: array<char>, n: nat, len: nat, threshold: int) returns (w: nat, ghost note: Option<Dedup.Collapse>)
    requires n <= len <= b.Length
    modifies b
    ensures w <= n && b[len..] == old(b[len..]) && Deduplicated(threshold, old(b[..n]), b[..w], note)
  {
    hide *;
    ghost var was := b[..];
    assert was[n..] == b[n..] && was[len..] == b[len..] && was[..n] == b[..n];
    w, note := n, None;
    if n > 0 {
      w, note := Dedup.CollapseDuplicatesInPlace(b, n, threshold);
      CollapsedText(was, b[..], n, w, threshold, note);
      TailsKept(was, b, n, len);
      assert b[..][..w] == b[..w];
    } else {
      NothingCollapsed(threshold);
      assert b[..n] == "";
    }
  }

  lemma NothingCollapsed(threshold: int)
    ensures Deduplicated(threshold, "", "", None)
  {
  }

  lemma CollapsedText(was: string, now: string, n: nat, w: nat, threshold: int, note: Option<Dedup.Collapse>)
    requires n <= |was| == |now| && w <= n
    requires note.None? ==> w == n && now == was
    requires note.Some? ==> w < n && Dedup.Noted(was, now, n, w, threshold, note.value)
    requires if threshold > 1 then Dedup.IsFirst(was, n, threshold, note) else note.None?
    ensures Deduplicated(threshold, was[..n], now[..w], note)
  {
    hide Dedup.Notice, Dedup.Repeated, Dedup.IsFirst, Dedup.Worth;
    if threshold > 1 { Dedup.FirstOfPrefix(was, n, threshold, note); }
    match note
    case None =>
    case Some(k) =>
      var e := k.first + |Dedup.Notice(k.times, k.newline)|;
      assert now[..w][..e] == now[..e] && was[..n][..k.first] == was[..k.first];
  }

  lemma TailsKept(was: string, b: array<char>, n: nat, len: nat)
    requires n <= len <= |was| == b.Length && b[n..] == was[n..]
    ensures b[len..] == was[len..]
  {
    assert b[len..] == b[n..][len - n..] && was[len..] == was[n..][len - n..];
  }

  /** Passes 1 to 4. */
  method RunPasses(c: Config, b: array<char>, len: nat) returns (n: nat)
    requires len <= b.Length
    modifies b
    ensures n <= len && b[len..] == old(b[len..]) && b[..n] == Compacted(c, old(b[..len]))
  {
    EmptyTexts();
    ghost var s := b[..len];
    hide Ansi.Strip, CarriageReturn.Resolve, Boilerplate.Stripped, Whitespace.Normalized;
    ghost var s1 := if c.stripANSI then Ansi.Strip(s) else s;
    ghost var s2 := if c.resolveCR then CarriageReturn.Resolve("", s1) else s1;
    ghost var s3 := if c.stripBoilerplate then Boilerplate.Stripped(s2, false) else s2;
    n := len;
    if c.stripANSI { n := PassAnsi(b, n, len); }
    if n > 0 && c.resolveCR { n := PassCR(b, n, len); }
    assert b[..n] == s2;
    if n > 0 && c.stripBoilerplate { n := PassBoilerplate(b, n, len); }
    assert b[..n] == s3;
    if n > 0 && c.normalizeWhitespace { n := PassWhitespace(b, n, len); }
  }

  lemma EmptyTexts()
    ensures Ansi.Strip("") == "" && CarriageReturn.Resolve("", "") == ""
    ensures Boilerplate.Stripped("", false) == "" && Whitespace.Normalized("") == ""
  {
  }

  method PassAnsi(b: array<char>, n: nat, len: nat) returns (w: nat)
    requires n <= len <= b.Length
    modifies b
    ensures w <= n && b[..w] == Ansi.Strip(old(b[..n])) && b[len..] == old(b[len..])
  {
    hide *;
    ghost var was := b[..];
    assert was[n..] == b[n..] && was[len..] == b[len..];
    w := Ansi.StripANSIInPlace(b, n);
    TailsKept(was, b, n, len);
  }

  method PassCR(b: array<char>, n: nat, len: nat) returns (w: nat)
    requires n <= len <= b.Length
    modifies b
    ensures w <= n && b[..w] == CarriageReturn.Resolve("", old(b[..n])) && b[len..] == old(b[len..])
  {
    hide *;
    ghost var was := b[..];
    assert was[n..] == b[n..] && was[len..] == b[len..];
    w := CarriageReturn.ResolveCarriageReturnsInPlace(b, n);
    TailsKept(was, b, n, len);
  }

  method PassBoilerplate(b: array<char>, n: nat, len: nat) returns (w: nat)
    requires n <= len <= b.Length
    modifies b
    ensures w <= n && b[..w] == Boilerplate.Stripped(old(b[..n]), false) && b[len..] == old(b[len..])
  {
    hide *;
    ghost var was := b[..];
    assert was[n..] == b[n..] && was[len..] == b[len..];
    w := Boilerplate.StripToolBoilerplateInPlace(b, n);
    TailsKept(was, b, n, len);
  }

  method PassWhitespace(b: array<char>, n: nat, len: nat) returns (w: nat)
    requires n <= len <= b.Length
    modifies b
    ensures w <= n && b[..w] == Whitespace.Normalized(old(b[..n])) && b[len..] == old(b[len..])
  {
    hide *;
    ghost var was := b[..];
    assert was[n..] == b[n..] && was[len..] == b[len..];
    w := Whitespace.NormalizeWhitespaceInPlace(b, n);
    TailsKept(was, b, n, len);
  }

  // ---------------------------------------------------------------- across the passes

  /** No pass brings back a character that an earlier one removed. */
  lemma {:induction false} ResolveBringsNone(line: string, s: string, c: char)
    requires c !in line && c !in s && c != '\n'
    ensures c !in CarriageReturn.Resolve(line, s)
    decreases |s|
  {
    if s != "" {
      if s[0] == '\r' && |s| > 1 && s[1] == '\n' {
        ResolveBringsNone("", s[2..], c);
      } else if s[0] == '\r' || s[0] == '\n' {
        ResolveBringsNone("", s[1..], c);
      } else {
        ResolveBringsNone(line + [s[0]], s[1..], c);
      }
    }
  }

  lemma {:induction false} BehindCloseBringsNone(s: string, c: char)
    requires c !in s
    ensures Boilerplate.BehindClose(s).Some? ==> c !in Boilerplate.BehindClose(s).value
    decreases |s|
  {
    if s != "" {
      TextSplit(s);
      hide LineText, RestOf, Boilerplate.Contains;
      BehindCloseBringsNone(RestOf(s), c);
    }
  }

  lemma {:induction false} StrippedBringsNone(s: string, inDetails: bool, c: char)
    requires c !in s && c !in Boilerplate.CLOSE + "\n"
    ensures c !in Boilerplate.Stripped(s, inDetails)
    decreases |s|
  {
    if s != "" {
      TextSplit(s);
      hide LineText, RestOf, Boilerplate.Contains, Boilerplate.BehindClose, Boilerplate.IsNoise, Boilerplate.IsSearch;
      var line := LineText(s);
      BehindCloseBringsNone(RestOf(s), c);
      if Boilerplate.IsNoise(line) {
        StrippedBringsNone(RestOf(s), inDetails, c);
      } else if Boilerplate.Inside(inDetails, line) && Boilerplate.IsSearch(line) {
        match Boilerplate.BehindClose(RestOf(s))
        case None =>
        case Some(rest) => StrippedBringsNone(rest, false, c);
      } else {
        StrippedBringsNone(RestOf(s), Boilerplate.Inside(inDetails, line) && !Boilerplate.Contains(line, Boilerplate.CLOSE), c);
      }
    }
  }

  lemma {:induction false} LinesBringNone(s: string, blanks: nat, c: char)
    requires c !in s && c != '\n'
    ensures c !in Whitespace.Lines(s, blanks)
    decreases |s|
  {
    if s != "" {
      SplitLine(s);
      hide LineOf, RestOf, HasNewline;
      var x := Whitespace.TrimRight(LineOf(s));
      assert c !in x;
      if HasNewline(s) { LinesBringNone(RestOf(s), if x == "" then blanks + 1 else 0, c); }
    }
  }

  lemma {:induction false} TrimEndBringsNone(t: string, c: char)
    requires c !in t
    ensures c !in Whitespace.TrimEnd(t)
  {
    if |t| > 1 && t[|t| - 1] == '\n' && t[|t| - 2] == '\n' { TrimEndBringsNone(t[..|t| - 1], c); }
  }

  /** With the first four passes on, the result has no escape byte and no carriage return, and is normal. */
  lemma CompactedIsClean(c: Config, s: string)
    requires c.stripANSI && c.resolveCR && c.normalizeWhitespace
    ensures Ansi.ESC !in Compacted(c, s) && '\r' !in Compacted(c, s) && Whitespace.Normal(Compacted(c, s), false)
  {
    Ansi.StripLeavesNone(s);
    var s1 := Ansi.Strip(s);
    CarriageReturn.ResolveLeavesNone("", s1);
    ResolveBringsNone("", s1, Ansi.ESC);
    var s2 := CarriageReturn.Resolve("", s1);
    var s3 := if c.stripBoilerplate then Boilerplate.Stripped(s2, false) else s2;
    CloseIsPlain();
    StrippedBringsNone(s2, false, Ansi.ESC);
    StrippedBringsNone(s2, false, '\r');
    LinesBringNone(s3, 0, Ansi.ESC);
    LinesBringNone(s3, 0, '\r');
    TrimEndBringsNone(Whitespace.Lines(s3, 0), Ansi.ESC);
    TrimEndBringsNone(Whitespace.Lines(s3, 0), '\r');
    Whitespace.NormalizedOnce(s3);
  }

  lemma CloseIsPlain()
    ensures Ansi.ESC !in Boilerplate.CLOSE + "\n" && '\r' !in Boilerplate.CLOSE + "\n" && Ansi.ESC != '\n'
  {
  }
}
