/** Model slugs: `<id>@<provider>`, where `\@` stands for an `@` inside the id. Both
    special bytes are ASCII, so scanning characters is scanning bytes. */
module Slug {
  import opened Text

  datatype Parsed = Parsed(id: string, provider: Option<string>)
  datatype SlugError = MultipleAt | EmptyModelId | EmptyProvider
  datatype Result = Ok(value: Parsed) | Err(error: SlugError)

  const AUDIT_LABEL: string := "byok"

  /** An `@` that no backslash escapes. */
  predicate IsSplit(s: string, i: nat) {
    i < |s| && s[i] == '@' && (i == 0 || s[i - 1] != '\\')
  }

  /** `replace("\\@", "@")`: left to right, without overlap. */
  function Unescape(s: string): string {
    if s == "" then ""
    else if |s| >= 2 && s[0] == '\\' && s[1] == '@' then "@" + Unescape(s[2..])
    else [s[0]] + Unescape(s[1..])
  }

  /** `escape_model_id`: `replace('@', "\\@")`. */
  function Escape(id: string): string {
    if id == "" then "" else (if id[0] == '@' then "\\@" else [id[0]]) + Escape(id[1..])
  }

  /** The positions of unescaped `@`s before `n`, in order. */
  function Ats(s: string, n: nat): (ats: seq<nat>)
    requires n <= |s|
    ensures forall k :: 0 <= k < |ats| ==> ats[k] < n
  {
    if n == 0 then [] else Ats(s, n - 1) + (if IsSplit(s, n - 1) then [n - 1] else [])
  }

  function Split(slug: string): Result {
    var ats := Ats(slug, |slug|);
    if ats == [] then Ok(Parsed(Unescape(slug), None))
    else if |ats| > 1 then Err(MultipleAt)
    else if ats[0] == 0 then Err(EmptyModelId)
    else if ats[0] + 1 == |slug| then Err(EmptyProvider)
    else Ok(Parsed(Unescape(slug[..ats[0]]), Some(slug[ats[0] + 1..])))
  }

  /** `split_model_slug` */
  method SplitModelSlug(slug: string) returns (r: Result)
    ensures r == Split(slug)
  {
    var ats: seq<nat> := [];
    for i := 0 to |slug|
      invariant ats == Ats(slug, i)
    {
      if slug[i] == '@' && (i == 0 || slug[i - 1] != '\\') {
        ats := ats + [i];
      }
    }
    if |ats| == 0 { return Ok(Parsed(Unescape(slug), None)); }
    if |ats| > 1 { return Err(MultipleAt); }
    var id, provider := slug[..ats[0]], slug[ats[0] + 1..];
    if id == "" { return Err(EmptyModelId); }
    if provider == "" { return Err(EmptyProvider); }
    r := Ok(Parsed(Unescape(id), Some(provider)));
  }

  /** A parsed slug written back. */
  function Print(p: Parsed): string {
    Escape(p.id) + (if p.provider.Some? then "@" + p.provider.value else "")
  }

  function BareModelId(slug: string): string {
    if Split(slug).Ok? then Split(slug).value.id else slug
  }

  function AuditSlug(slug: string): string {
    Escape(BareModelId(slug)) + "@" + AUDIT_LABEL
  }

  // ------------------------------------------------------------------- escapes

  /** Every `@` of `s` follows a backslash. */
  predicate AllEscaped(s: string) {
    forall i :: 0 <= i < |s| ==> !IsSplit(s, i)
  }

  lemma {:induction false} AtsAre(s: string, n: nat)
    requires n <= |s|
    ensures forall i: nat :: i in Ats(s, n) <==> i < n && IsSplit(s, i)
    ensures forall a, b :: 0 <= a < b < |Ats(s, n)| ==> Ats(s, n)[a] < Ats(s, n)[b]
  {
    if n > 0 { AtsAre(s, n - 1); }
  }

  lemma {:induction false} UnescapeEscape(id: string)
    ensures Unescape(Escape(id)) == id
  {
    if id != "" {
      UnescapeEscape(id[1..]);
      var rest := Escape(id[1..]);
      if id[0] == '@' {
        assert ("\\@" + rest)[2..] == rest;
      } else {
        assert ([id[0]] + rest)[1..] == rest;
        if |rest| > 0 { EscapeStart(id[1..]); }
      }
    }
  }

  /** An escaped text never begins with an `@`. */
  lemma EscapeStart(id: string)
    requires Escape(id) != ""
    ensures Escape(id)[0] != '@'
  {
    if id[0] == '@' { assert Escape(id)[0] == '\\'; }
  }

  /** Every `@` of an escaped text is escaped. */
  lemma {:induction false} EscapeEscapes(id: string)
    ensures AllEscaped(Escape(id))
  {
    if id != "" {
      EscapeEscapes(id[1..]);
      var first, rest := if id[0] == '@' then "\\@" else [id[0]], Escape(id[1..]);
      var s := first + rest;
      if rest != "" { EscapeStart(id[1..]); }
      forall i | 0 <= i < |s| ensures !IsSplit(s, i) {
        if i > |first| { assert !IsSplit(rest, i - |first|); }
      }
    }
  }

  /** Where every `@` is escaped, escaping undoes unescaping. */
  lemma {:induction false} EscapeUnescape(raw: string)
    requires AllEscaped(raw)
    ensures Escape(Unescape(raw)) == raw
  {
    if raw != "" {
      assert !IsSplit(raw, 0);
      if |raw| >= 2 && raw[0] == '\\' && raw[1] == '@' {
        var rest := raw[2..];
        forall i | 0 <= i < |rest| ensures !IsSplit(rest, i) { assert !IsSplit(raw, i + 2); }
        EscapeUnescape(rest);
        assert ("@" + Unescape(rest))[1..] == Unescape(rest);
        assert "\\@" + rest == raw;
      } else {
        var rest := raw[1..];
        forall i | 0 <= i < |rest| ensures !IsSplit(rest, i) { assert !IsSplit(raw, i + 1); }
        EscapeUnescape(rest);
        assert ([raw[0]] + Unescape(rest))[1..] == Unescape(rest);
        assert [raw[0]] + rest == raw;
      }
    }
  }

  predicate EndsInBackslash(s: string) { s != "" && s[|s| - 1] == '\\' }

  lemma {:induction false} EscapeEnd(id: string)
    ensures EndsInBackslash(Escape(id)) <==> EndsInBackslash(id)
    ensures Escape(id) == "" <==> id == ""
  {
    if id != "" {
      EscapeEnd(id[1..]);
      var first, rest := if id[0] == '@' then "\\@" else [id[0]], Escape(id[1..]);
      assert Escape(id) == first + rest;
      if rest != "" {
        assert (first + rest)[|first + rest| - 1] == rest[|rest| - 1];
        assert id[1..][|id| - 2] == id[|id| - 1];
      } else {
        assert id == [id[0]] && first + rest == first;
      }
    }
  }

  // ---------------------------------------------------------- parse and print

  /** What an accepted slug with a provider looks like: one unescaped `@`, inside it. */
  lemma SplitAt(slug: string) returns (at: nat)
    requires Split(slug).Ok? && Split(slug).value.provider.Some?
    ensures 0 < at < |slug| - 1 && IsSplit(slug, at) && forall i :: 0 <= i < |slug| && i != at ==> !IsSplit(slug, i)
    ensures Split(slug).value == Parsed(Unescape(slug[..at]), Some(slug[at + 1..]))
  {
    var ats := Ats(slug, |slug|);
    AtsAre(slug, |slug|);
    at := ats[0];
    assert at in ats;
    forall i | 0 <= i < |slug| && i != at ensures !IsSplit(slug, i) { assert i !in ats; }
  }

  /** An accepted slug without a provider holds no unescaped `@`. */
  lemma SplitNowhere(slug: string)
    requires Split(slug).Ok? && Split(slug).value.provider.None?
    ensures AllEscaped(slug) && Split(slug).value == Parsed(Unescape(slug), None)
  {
    var ats := Ats(slug, |slug|);
    AtsAre(slug, |slug|);
    assert ats == [];
    forall i | 0 <= i < |slug| ensures !IsSplit(slug, i) { assert i !in ats; }
  }

  lemma IdIsEscaped(slug: string, at: nat)
    requires at <= |slug| && forall i :: 0 <= i < at ==> !IsSplit(slug, i)
    ensures AllEscaped(slug[..at])
  {
    forall i | 0 <= i < at ensures !IsSplit(slug[..at], i) { assert !IsSplit(slug, i); }
  }

  lemma PrintsProvider(slug: string, at: nat, p: Parsed)
    requires at < |slug| && slug[at] == '@' && forall i :: 0 <= i < at ==> !IsSplit(slug, i)
    requires p == Parsed(Unescape(slug[..at]), Some(slug[at + 1..]))
    ensures Print(p) == slug
  {
    IdIsEscaped(slug, at);
    EscapeUnescape(slug[..at]);
    assert slug[..at] + ("@" + slug[at + 1..]) == slug;
  }

  lemma PrintsPlain(slug: string, p: Parsed)
    requires AllEscaped(slug) && p == Parsed(Unescape(slug), None)
    ensures Print(p) == slug
  {
    EscapeUnescape(slug);
    assert slug + "" == slug;
  }

  /** Printing a parse gives the slug back, for every slug accepted. */
  lemma PrintSplit(slug: string)
    requires Split(slug).Ok?
    ensures Print(Split(slug).value) == slug
  {
    var p := Split(slug).value;
    if p.provider.Some? {
      var at := SplitAt(slug);
      PrintsProvider(slug, at, p);
    } else {
      SplitNowhere(slug);
      PrintsPlain(slug, p);
    }
  }

  lemma {:induction false} NoAts(s: string, n: nat)
    requires n <= |s| && forall i :: 0 <= i < n ==> !IsSplit(s, i)
    ensures Ats(s, n) == []
  {
    if n > 0 { NoAts(s, n - 1); }
  }

  lemma {:induction false} OneAt(s: string, k: nat, n: nat)
    requires k < n <= |s| && IsSplit(s, k) && forall i :: 0 <= i < n && i != k ==> !IsSplit(s, i)
    ensures Ats(s, n) == [k]
  {
    if k == n - 1 { NoAts(s, n - 1); } else { OneAt(s, k, n - 1); }
  }

  /** A provider name splits nothing: none of its `@`s is unescaped, the first counting as
      such because the separator stands before it. */
  predicate IsPlainProvider(p: string) {
    p != "" && AllEscaped(p)
  }

  lemma WrittenSplits(id: string, p: string)
    requires id != "" && !EndsInBackslash(id) && IsPlainProvider(p)
    ensures Split(Escape(id) + "@" + p) == Ok(Parsed(id, Some(p)))
  {
    var raw := Escape(id);
    var slug := raw + "@" + p;
    EscapeEnd(id);
    EscapeEscapes(id);
    SlugAts(raw, p, slug);
    OneAt(slug, |raw|, |slug|);
    assert slug[..|raw|] == raw && slug[|raw| + 1..] == p;
    UnescapeEscape(id);
  }

  lemma SurvivorsArePlain(id: string, p: string)
    requires Split(Escape(id) + "@" + p) == Ok(Parsed(id, Some(p)))
    ensures id != "" && !EndsInBackslash(id) && IsPlainProvider(p)
  {
    var raw := Escape(id);
    var slug := raw + "@" + p;
    EscapeEnd(id);
    EscapeEscapes(id);
    SlugAts(raw, p, slug);
    var at := SplitAt(slug);
    assert |slug[at + 1..]| == |p| && at == |raw|;
    forall i | 0 <= i < |p| ensures !IsSplit(p, i) { assert !IsSplit(slug, |raw| + 1 + i); }
  }

  /** Exactly which pairs survive being written as a slug: the id is not empty and does not
      end in a backslash, and the provider is not empty and holds no unescaped `@`. */
  lemma SplitPrintExactlyWhen(id: string, p: string)
    ensures Split(Escape(id) + "@" + p) == Ok(Parsed(id, Some(p)))
            <==> id != "" && !EndsInBackslash(id) && IsPlainProvider(p)
  {
    if id != "" && !EndsInBackslash(id) && IsPlainProvider(p) {
      WrittenSplits(id, p);
    } else if Split(Escape(id) + "@" + p) == Ok(Parsed(id, Some(p))) {
      SurvivorsArePlain(id, p);
    }
  }

  /** Where a slug written from an escaped id and a provider has its unescaped `@`s. */
  lemma SlugAts(raw: string, p: string, slug: string)
    requires AllEscaped(raw) && slug == raw + "@" + p
    ensures forall i :: 0 <= i < |raw| ==> !IsSplit(slug, i)
    ensures IsSplit(slug, |raw|) <==> !EndsInBackslash(raw)
    ensures forall i :: 0 <= i < |p| ==> (IsSplit(slug, |raw| + 1 + i) <==> IsSplit(p, i))
    ensures AllEscaped(p) ==> forall i :: |raw| < i < |slug| ==> !IsSplit(slug, i)
  {
    forall i | 0 <= i < |raw| ensures !IsSplit(slug, i) { assert !IsSplit(raw, i); }
    if AllEscaped(p) {
      forall i | |raw| < i < |slug| ensures !IsSplit(slug, i) { assert !IsSplit(p, i - |raw| - 1); }
    }
  }

  /** The id of an accepted slug that names a provider is not empty and does not end in a
      backslash. */
  lemma {:induction false} UnescapeEnd(raw: string)
    ensures Unescape(raw) == "" <==> raw == ""
    ensures !EndsInBackslash(raw) ==> !EndsInBackslash(Unescape(raw))
  {
    if raw != "" {
      var step := if |raw| >= 2 && raw[0] == '\\' && raw[1] == '@' then 2 else 1;
      var first, rest := if step == 2 then "@" else [raw[0]], raw[step..];
      UnescapeEnd(rest);
      assert Unescape(raw) == first + Unescape(rest);
      if rest != "" {
        assert rest[|rest| - 1] == raw[|raw| - 1];
        assert (first + Unescape(rest))[|first + Unescape(rest)| - 1] == Unescape(rest)[|Unescape(rest)| - 1];
      }
    }
  }

  lemma ProviderId(slug: string)
    requires Split(slug).Ok? && Split(slug).value.provider.Some?
    ensures var id := Split(slug).value.id; id != "" && !EndsInBackslash(id)
  {
    var at := SplitAt(slug);
    var raw := slug[..at];
    assert raw[|raw| - 1] == slug[at - 1];
    UnescapeEnd(raw);
  }

  /** The audit form of a slug parses back to the same id under the audit label exactly
      when the id is not empty and does not end in a backslash. */
  lemma AuditParsesExactlyWhen(slug: string)
    ensures var id := BareModelId(slug);
            Split(AuditSlug(slug)) == Ok(Parsed(id, Some(AUDIT_LABEL))) <==> id != "" && !EndsInBackslash(id)
  {
    assert IsPlainProvider(AUDIT_LABEL);
    SplitPrintExactlyWhen(BareModelId(slug), AUDIT_LABEL);
  }

  /** For every accepted slug that names a provider, the audit form keeps the id, carries
      the audit label, and is its own audit form. */
  lemma AuditOfProvider(slug: string)
    requires Split(slug).Ok? && Split(slug).value.provider.Some?
    ensures Split(AuditSlug(slug)) == Ok(Parsed(Split(slug).value.id, Some(AUDIT_LABEL)))
    ensures AuditSlug(AuditSlug(slug)) == AuditSlug(slug)
  {
    ProviderId(slug);
    AuditParsesExactlyWhen(slug);
  }

  lemma {:induction false} EscapeLengthens(id: string)
    ensures |Escape(id)| >= |id|
  {
    if id != "" { EscapeLengthens(id[1..]); }
  }

  /** Where the written id is empty or ends in a backslash, no provider is read back. */
  lemma NoProviderRead(id: string)
    requires id == "" || EndsInBackslash(id)
    ensures var r := Split(Escape(id) + "@" + AUDIT_LABEL); if id == "" then r == Err(EmptyModelId) else r.Ok? && r.value.provider.None?
  {
    var raw := Escape(id);
    var slug := raw + "@" + AUDIT_LABEL;
    EscapeEnd(id);
    EscapeEscapes(id);
    SlugAts(raw, AUDIT_LABEL, slug);
    if id == "" {
      OneAt(slug, 0, |slug|);
    } else {
      NoAts(slug, |slug|);
    }
  }

  /** A slug is its own audit form a second time exactly when the first one parses back. */
  lemma AuditSettlesExactlyWhen(slug: string)
    ensures AuditSlug(AuditSlug(slug)) == AuditSlug(slug) <==>
            BareModelId(slug) != "" && !EndsInBackslash(BareModelId(slug))
  {
    var id, once := BareModelId(slug), AuditSlug(slug);
    AuditParsesExactlyWhen(slug);
    if id == "" || EndsInBackslash(id) {
      NoProviderRead(id);
      if Split(once).Ok? { PrintSplit(once); }
      EscapeLengthens(BareModelId(once));
      assert |AuditSlug(once)| > |once|;
    }
  }

  /** Two slugs whose audit form does not read back: the empty one, and `m\`. */
  lemma AuditLosesProvider()
    ensures Split(AuditSlug("")).Err?
    ensures var r := Split(AuditSlug("m\\")); r.Ok? && r.value.provider.None?
  {
    assert BareModelId("") == "" by { NoAts("", 0); }
    NoProviderRead("");
    NoAts("m\\", 2);
    UnescapesToItself();
    NoProviderRead("m\\");
  }

  lemma UnescapesToItself()
    ensures Unescape("m\\") == "m\\"
  {
    var s := "m\\";
    assert s[1..] == "\\" && s[1..][1..] == "";
  }

  predicate IsOnlySplit(s: string, i: nat) {
    IsSplit(s, i) && forall j :: 0 <= j < |s| && j != i ==> !IsSplit(s, j)
  }

  predicate HasTwoSplits(s: string) {
    exists i, j :: 0 <= i < j < |s| && IsSplit(s, i) && IsSplit(s, j)
  }

  lemma ManySplits(slug: string)
    ensures |Ats(slug, |slug|)| >= 2 <==> HasTwoSplits(slug)
  {
    var ats := Ats(slug, |slug|);
    AtsAre(slug, |slug|);
    if |ats| >= 2 {
      assert ats[0] in ats && ats[1] in ats;
    }
    if HasTwoSplits(slug) {
      var i, j :| 0 <= i < j < |slug| && IsSplit(slug, i) && IsSplit(slug, j);
      assert i in ats && j in ats;
    }
  }

  lemma SingleSplit(slug: string, i: nat)
    ensures Ats(slug, |slug|) == [i] <==> IsOnlySplit(slug, i)
  {
    var ats := Ats(slug, |slug|);
    if ats == [i] {
      AtsAre(slug, |slug|);
      assert i in ats;
      forall j | 0 <= j < |slug| && j != i ensures !IsSplit(slug, j) { assert j !in ats; }
    } else if IsOnlySplit(slug, i) {
      OneAt(slug, i, |slug|);
    }
  }

  /** Which slugs are rejected, and with what: two unescaped `@`s or more are too many; a single
      one must have an id before it and a provider after it. */
  lemma RejectedExactlyWhen(slug: string)
    ensures Split(slug) == Err(MultipleAt) <==> HasTwoSplits(slug)
    ensures Split(slug) == Err(EmptyModelId) <==> IsOnlySplit(slug, 0)
    ensures Split(slug) == Err(EmptyProvider) <==> |slug| >= 2 && IsOnlySplit(slug, |slug| - 1)
    ensures Split(slug).Err? ==> BareModelId(slug) == slug
  {
    var ats := Ats(slug, |slug|);
    ManySplits(slug);
    SingleSplit(slug, 0);
    if |slug| >= 2 { SingleSplit(slug, |slug| - 1); }
    if |ats| == 1 { assert ats == [ats[0]]; }
  }
}
