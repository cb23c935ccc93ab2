/**
 Signal identity: the canonical id that groups the per-client copies of one opportunity,
 and the four-field provenance stored beside a confirmed crossing time.
 */
module Identity {
  import opened Common
  import opened Texts

  // ---- Canonical signal ids ----

  const REEVAL := "REEVAL:"

  predicate Hex(c: char) {
    '0' <= c <= '9' || 'a' <= c <= 'f' || 'A' <= c <= 'F'
  }

  predicate AllHex(s: string) {
    forall i :: 0 <= i < |s| ==> Hex(s[i])
  }

  /** The 8-4-4-4-12 text form of a UUID. */
  predicate UuidShape(s: string) {
    && |s| == 36
    && forall i :: 0 <= i < 36 ==> if i == 8 || i == 13 || i == 18 || i == 23 then s[i] == '-' else Hex(s[i])
  }

  predicate ReevalBase(s: string) {
    |s| == 43 && s[..7] == REEVAL && UuidShape(s[7..])
  }

  predicate HasSuffix(s: string) {
    |s| > 44 && ReevalBase(s[..43]) && s[43] == ':' && AllHex(s[44..])
  }

  function Strip(id: string): string {
    if HasSuffix(id) then id[..43] else id
  }

  /** An explicit non-empty canonical id wins; anything that is not a text has none. */
  function Canonical(id: Field, explicit: Field): string {
    if explicit.Text? && explicit.s != "" then explicit.s
    else if id.Text? then Strip(id.s)
    else ""
  }

  ghost predicate HexCode(c: char) {
    48 <= c as int <= 57 || 65 <= c as int <= 70 || 97 <= c as int <= 102
  }

  /** A reevaluation base is the prefix and five groups of 8, 4, 4, 4 and 12 hex digits with a dash
      between any two; a suffix is a colon and at least one hex digit. */
  lemma BaseAndSuffixIff(s: string)
    ensures ReevalBase(s) <==>
              && |s| == 43 && s[..7] == "REEVAL:"
              && s[15] == s[20] == s[25] == s[30] == '-'
              && forall i :: 7 <= i < 43 && i !in {15, 20, 25, 30} ==> HexCode(s[i])
    ensures HasSuffix(s) <==>
              |s| >= 45 && ReevalBase(s[..43]) && s[43] == ':' && forall i :: 44 <= i < |s| ==> HexCode(s[i])
  {
    if |s| == 43 {
      var u := s[7..];
      assert forall i :: 7 <= i < 43 ==> s[i] == u[i - 7];
    }
    if |s| >= 45 {
      assert forall i :: 44 <= i < |s| ==> s[i] == s[44..][i - 44];
    }
  }

  /** `id` is `base`, or a reevaluation of `base` with some hex tail. */
  ghost predicate CopyOf(id: string, base: string) {
    id == base || (ReevalBase(base) && exists tail :: tail != "" && AllHex(tail) && id == base + ":" + tail)
  }

  lemma StripsExactlyTheTail(base: string, tail: string)
    requires ReevalBase(base) && tail != "" && AllHex(tail)
    ensures Strip(base + ":" + tail) == base && Strip(base) == base
  {
    var id := base + ":" + tail;
    assert id[..43] == base && id[44..] == tail;
  }

  lemma StripIsACopy(id: string)
    ensures CopyOf(id, Strip(id)) && Strip(Strip(id)) == Strip(id)
  {
    if HasSuffix(id) {
      assert id == id[..43] + ":" + id[44..];
    }
  }

  lemma CopiesStripToTheBase(id: string, base: string)
    requires CopyOf(id, base) && (id == base ==> Strip(base) == base)
    ensures Strip(id) == base
  {
    if id != base {
      var tail :| tail != "" && AllHex(tail) && id == base + ":" + tail;
      StripsExactlyTheTail(base, tail);
    }
  }

  /** Without an override, canonicalising is idempotent and merges two ids exactly when both
      are copies of one base. */
  lemma CanonicalGroupsCopies(a: string, b: string)
    ensures Canonical(Text(Canonical(Text(a), Missing)), Missing) == Canonical(Text(a), Missing)
    ensures Canonical(Text(a), Missing) == Canonical(Text(b), Missing)
        <==> exists base :: CopyOf(a, base) && CopyOf(b, base)
  {
    StripIsACopy(a);
    StripIsACopy(b);
    if base :| CopyOf(a, base) && CopyOf(b, base) {
      if a != b {
        assert Strip(base) == base by {
          assert ReevalBase(base);
        }
        CopiesStripToTheBase(a, base);
        CopiesStripToTheBase(b, base);
      }
    }
  }

  /** An explicit text wins as it stands; without one the signal id counts, and only as a text. */
  lemma ExplicitWins(id: Field, explicit: Field)
    ensures (exists v :: v != "" && explicit == Text(v)) ==> Text(Canonical(id, explicit)) == explicit
    ensures explicit == Text("") || !explicit.Text? ==> Canonical(id, explicit) == Canonical(id, Missing)
    ensures !id.Text? ==> Canonical(id, Missing) == ""
  {
  }

  // ---- Trigger provenance ----

  datatype Metadata = NotARecord | Fields(r: Record)

  /** What the build reads of a signal. */
  datatype Source = Source(signal: Record, meta: Metadata)

  datatype Provenance = Provenance(canonical: string, client: string, mode: string, order: string)

  const BLANK := Provenance("", "", "", "")
  const KEYS := {CanonicalSignalId, ClientId, ExecutionMode, LocalOrderId}

  /** The present values under some names; `None` as soon as one of them is not a text. */
  function Values(r: Record, names: seq<Key>, lower: bool): Option<seq<string>> {
    if |names| == 0 then Some([])
    else
      var f := Get(r, names[0]);
      if !Present(f) then Values(r, names[1..], lower)
      else if !f.Text? then None
      else
        var rest := Values(r, names[1..], lower);
        if rest.None? then None else Some([Normal(f.s, lower)] + rest.value)
  }

  predicate Agreeing(values: seq<string>) {
    forall v :: v in values ==> v == values[0]
  }

  /** The one value all sources agree on, "" when there is none, `None` on a contradiction. */
  function Resolve(s: Source, names: seq<Key>, lower: bool): Option<string> {
    if s.meta.NotARecord? then None
    else
      var here, there := Values(s.signal, names, lower), Values(s.meta.r, names, lower);
      if here.None? || there.None? then None
      else
        var all := here.value + there.value;
        if !Agreeing(all) then None else if |all| == 0 then Some("") else Some(all[0])
  }

  const CLIENT := [ClientId, ClientEmail]
  const MODE := [ExecutionMode]
  const ORDER := [LocalOrderId]
  const SIGNAL := [SignalId]
  const CANONICAL := [CanonicalSignalId]

  /** The signal's own order id and the caller's must not contradict each other. */
  function JoinOrder(own: Option<string>, supplied: Field): Option<string> {
    var given := if supplied.Text? then Trim(supplied.s) else "";
    if own.None? then None
    else if given != "" && own.value != "" && given != own.value then None
    else if own.value == "" then Some(given)
    else own
  }

  function Assemble(id: Option<string>, canonical: Option<string>, client: Option<string>, mode: Option<string>,
      order: Option<string>): Provenance {
    if id.None? || canonical.None? || client.None? || mode.None? || order.None? then BLANK
    else
      Provenance(if canonical.value == "" && id.value != "" then Strip(id.value) else canonical.value,
                 client.value, mode.value, order.value)
  }

  function Build(s: Source, supplied: Field): Provenance {
    Assemble(Resolve(s, SIGNAL, false), Resolve(s, CANONICAL, false), Resolve(s, CLIENT, true), Resolve(s, MODE, true),
             JoinOrder(Resolve(s, ORDER, false), supplied))
  }

  predicate Complete(p: Provenance) {
    p.canonical != "" && p.client != "" && p.mode in {"live", "paper"} && p.order != ""
  }

  function ReadAs(f: Field, lower: bool): string {
    Normal(OrBlank(f), lower)
  }

  /** A stored provenance is any record; only its normal form is compared. */
  function Actual(stored: Record): Provenance {
    Provenance(ReadAs(Get(stored, CanonicalSignalId), false), ReadAs(Get(stored, ClientId), true),
               ReadAs(Get(stored, ExecutionMode), true), ReadAs(Get(stored, LocalOrderId), false))
  }

  predicate Vouches(stored: Record, expected: Provenance) {
    stored.Keys == KEYS && Complete(expected) && Complete(Actual(stored)) && Actual(stored) == expected
  }

  predicate Matches(stored: Record, s: Source, supplied: Field) {
    Vouches(stored, Build(s, supplied))
  }

  function Stored(p: Provenance): Record {
    map[CanonicalSignalId := Text(p.canonical), ClientId := Text(p.client),
        ExecutionMode := Text(p.mode), LocalOrderId := Text(p.order)]
  }

  lemma {:induction false} ValuesAreNormal(r: Record, names: seq<Key>, lower: bool, i: nat) returns (raw: string)
    requires Values(r, names, lower).Some? && i < |Values(r, names, lower).value|
    ensures Values(r, names, lower).value[i] == Normal(raw, lower)
  {
    var f := Get(r, names[0]);
    if !Present(f) {
      raw := ValuesAreNormal(r, names[1..], lower, i);
    } else if i == 0 {
      raw := f.s;
    } else {
      raw := ValuesAreNormal(r, names[1..], lower, i - 1);
    }
  }

  predicate Settled(v: string, lower: bool) {
    Unpadded(v) && Normal(v, lower) == v
  }

  lemma ResolvedIsNormal(s: Source, names: seq<Key>, lower: bool)
    ensures Resolve(s, names, lower).Some? ==> Settled(Resolve(s, names, lower).value, lower)
  {
    var v := Resolve(s, names, lower);
    if v.Some? && v.value != "" {
      var here := Values(s.signal, names, lower).value;
      var raw;
      if |here| > 0 {
        raw := ValuesAreNormal(s.signal, names, lower, 0);
      } else {
        raw := ValuesAreNormal(s.meta.r, names, lower, 0);
      }
      NormalIsStable(raw, lower);
    }
  }

  /** Some present value under these names, and each of them a text that normalises to `v`. */
  ghost predicate AllSay(r: Record, names: seq<Key>, lower: bool, v: string) {
    forall k :: k in names && Present(Get(r, k)) ==> Get(r, k).Text? && Normal(Get(r, k).s, lower) == v
  }

  ghost predicate SomeSay(r: Record, names: seq<Key>) {
    exists k :: k in names && Present(Get(r, k))
  }

  ghost predicate AllEqual(values: seq<string>, v: string) {
    forall x :: x in values ==> x == v
  }

  lemma AllEqualCons(x: string, rest: seq<string>, v: string)
    ensures AllEqual([x] + rest, v) <==> x == v && AllEqual(rest, v)
  {
    assert x in [x] + rest;
    forall y | y in rest ensures y in [x] + rest {
    }
  }

  lemma {:induction false} ValuesIff(r: Record, names: seq<Key>, lower: bool, v: string)
    ensures Values(r, names, lower).Some? && AllEqual(Values(r, names, lower).value, v) <==> AllSay(r, names, lower, v)
    ensures Values(r, names, lower).Some? ==> (|Values(r, names, lower).value| > 0 <==> SomeSay(r, names))
  {
    if |names| > 0 {
      ValuesIff(r, names[1..], lower, v);
      assert forall k :: k in names <==> k == names[0] || k in names[1..];
      var f, rest, all := Get(r, names[0]), Values(r, names[1..], lower), Values(r, names, lower);
      if Present(f) && f.Text? && rest.Some? {
        assert all == Some([Normal(f.s, lower)] + rest.value);
        AllEqualCons(Normal(f.s, lower), rest.value, v);
      }
      assert AllSay(r, names, lower, v)
          <==> (Present(f) ==> f.Text? && Normal(f.s, lower) == v) && AllSay(r, names[1..], lower, v);
    }
  }

  /** Sources agree on `v` exactly when some source speaks and every source that does says `v`. */
  lemma ResolvesIff(s: Source, names: seq<Key>, lower: bool, v: string)
    requires v != ""
    ensures Resolve(s, names, lower) == Some(v) <==>
              && s.meta.Fields? && AllSay(s.signal, names, lower, v) && AllSay(s.meta.r, names, lower, v)
              && (SomeSay(s.signal, names) || SomeSay(s.meta.r, names))
  {
    if s.meta.Fields? {
      ValuesIff(s.signal, names, lower, v);
      ValuesIff(s.meta.r, names, lower, v);
      var here, there := Values(s.signal, names, lower), Values(s.meta.r, names, lower);
      if here.Some? && there.Some? {
        var all := here.value + there.value;
        assert forall x :: x in all <==> x in here.value || x in there.value;
        if |all| > 0 { assert all[0] in all; }
      }
    }
  }

  ghost predicate EverySourceSays(s: Source, names: seq<Key>, lower: bool, v: string) {
    s.meta.Fields? && AllSay(s.signal, names, lower, v) && AllSay(s.meta.r, names, lower, v)
  }

  /** When a provenance is complete, and what it says then, over what the sources agree on: a client, a
      mode that is live or paper, a canonical id or a signal id to derive it from, and an order on which
      the signal and the caller do not disagree. */
  lemma CompleteIff(s: Source, supplied: Field)
    ensures var id, canonical := Resolve(s, SIGNAL, false), Resolve(s, CANONICAL, false);
            var client, mode, own := Resolve(s, CLIENT, true), Resolve(s, MODE, true), Resolve(s, ORDER, false);
            var given := if supplied.Text? then Trim(supplied.s) else "";
            && (Complete(Build(s, supplied)) <==>
                  && id.Some? && canonical.Some? && (id.value != "" || canonical.value != "")
                  && client.Some? && client.value != "" && (mode == Some("live") || mode == Some("paper"))
                  && own.Some? && (own.value != "" || given != "")
                  && (own.value == "" || given == "" || own.value == given))
            && (Complete(Build(s, supplied)) ==>
                  Build(s, supplied) == Provenance(
                    if canonical.value != "" then canonical.value else Strip(id.value),
                    client.value, mode.value, if own.value != "" then own.value else given))
  {
    var id := Resolve(s, SIGNAL, false);
    if id.Some? && id.value != "" { assert Strip(id.value) != ""; }
  }

  /** A stored record matches exactly if it has the four keys and no other, the expected provenance is
      complete, and each field reads as it expects. */
  lemma MatchesIff(stored: Record, s: Source, supplied: Field)
    ensures var p := Build(s, supplied);
            Matches(stored, s, supplied) <==>
              && stored.Keys == {CanonicalSignalId, ClientId, ExecutionMode, LocalOrderId} && Complete(p)
              && Trim(OrBlank(stored[CanonicalSignalId])) == p.canonical
              && Lower(Trim(OrBlank(stored[ClientId]))) == p.client
              && Lower(Trim(OrBlank(stored[ExecutionMode]))) == p.mode
              && Trim(OrBlank(stored[LocalOrderId])) == p.order
  {
  }

  /** A complete provenance says of each field what every source that speaks says; the canonical id
      falls back to the stripped signal id, and the order to the caller's. */
  lemma CompleteBuildSpeaksForItsSources(s: Source, supplied: Field)
    requires Complete(Build(s, supplied))
    ensures var p := Build(s, supplied);
            && EverySourceSays(s, CLIENT, true, p.client) && EverySourceSays(s, MODE, true, p.mode)
            && (Resolve(s, CANONICAL, false) != Some("") ==> EverySourceSays(s, CANONICAL, false, p.canonical))
            && (Resolve(s, CANONICAL, false) == Some("") ==>
                  exists id :: id != "" && EverySourceSays(s, SIGNAL, false, id) && p.canonical == Strip(id))
            && (if Resolve(s, ORDER, false) == Some("")
                then supplied.Text? && p.order == Trim(supplied.s)
                else
                  && EverySourceSays(s, ORDER, false, p.order)
                  && (supplied.Text? && Trim(supplied.s) != "" ==> Trim(supplied.s) == p.order))
  {
    var p := Build(s, supplied);
    CompleteParts(Resolve(s, SIGNAL, false), Resolve(s, CANONICAL, false),
                  Resolve(s, CLIENT, true), Resolve(s, MODE, true),
              Resolve(s, ORDER, false), supplied);
    ResolvesIff(s, CLIENT, true, p.client);
    ResolvesIff(s, MODE, true, p.mode);
    if Resolve(s, CANONICAL, false) != Some("") {
      ResolvesIff(s, CANONICAL, false, p.canonical);
    } else {
      ResolvesIff(s, SIGNAL, false, Resolve(s, SIGNAL, false).value);
    }
    if Resolve(s, ORDER, false) != Some("") {
      ResolvesIff(s, ORDER, false, p.order);
    }
  }

  lemma CompleteParts(id: Option<string>, canonical: Option<string>, client: Option<string>, mode: Option<string>,
      own: Option<string>, supplied: Field)
    requires Complete(Assemble(id, canonical, client, mode, JoinOrder(own, supplied)))
    ensures var p := Assemble(id, canonical, client, mode, JoinOrder(own, supplied));
            && client == Some(p.client) && mode == Some(p.mode) && p.client != "" && p.mode != ""
            && (if canonical == Some("") then id.Some? && id.value != "" && p.canonical == Strip(id.value)
                else canonical == Some(p.canonical))
            && (if own == Some("") then supplied.Text? && p.order == Trim(supplied.s)
                else own == Some(p.order) && (supplied.Text? && Trim(supplied.s) != "" ==> Trim(supplied.s) == p.order))
  {
  }

  lemma StripKeepsUnpadded(id: string)
    requires Unpadded(id)
    ensures Unpadded(Strip(id))
  {
  }

  predicate SettledFields(p: Provenance) {
    Settled(p.canonical, false) && Settled(p.client, true) && Settled(p.mode, true) && Settled(p.order, false)
  }

  predicate MaybeSettled(v: Option<string>, lower: bool) {
    v.None? || Settled(v.value, lower)
  }

  lemma AssembleIsNormal(id: Option<string>, canonical: Option<string>, client: Option<string>,
      mode: Option<string>, own: Option<string>, supplied: Field)
    requires MaybeSettled(id, false) && MaybeSettled(canonical, false) && MaybeSettled(client, true)
        && MaybeSettled(mode, true) && MaybeSettled(own, false)
    ensures SettledFields(Assemble(id, canonical, client, mode, JoinOrder(own, supplied)))
  {
    if id.Some? { StripKeepsUnpadded(id.value); }
    assert Settled("", true) && Settled("", false);
  }

  lemma BuildIsNormal(s: Source, supplied: Field)
    ensures SettledFields(Build(s, supplied))
  {
    ResolvedIsNormal(s, SIGNAL, false);
    ResolvedIsNormal(s, CANONICAL, false);
    ResolvedIsNormal(s, CLIENT, true);
    ResolvedIsNormal(s, MODE, true);
    ResolvedIsNormal(s, ORDER, false);
    AssembleIsNormal(Resolve(s, SIGNAL, false), Resolve(s, CANONICAL, false), Resolve(s, CLIENT, true),
                     Resolve(s, MODE, true), Resolve(s, ORDER, false), supplied);
  }

  lemma TextReadsAsItself(v: string, lower: bool)
    requires Settled(v, lower)
    ensures ReadAs(Text(v), lower) == v
  {
  }

  lemma ReadBack(p: Provenance)
    requires SettledFields(p)
    ensures Actual(Stored(p)) == p
  {
    TextReadsAsItself(p.canonical, false);
    TextReadsAsItself(p.client, true);
    TextReadsAsItself(p.mode, true);
    TextReadsAsItself(p.order, false);
  }

  lemma CompleteVouches(p: Provenance)
    requires SettledFields(p)
    ensures Vouches(Stored(p), p) <==> Complete(p)
  {
    ReadBack(p);
    assert Stored(p).Keys == KEYS;
  }

  /** Round trip: what is written beside a crossing is accepted on the way back exactly when
      it was complete. */
  lemma BuiltProvenanceMatchesItsSignal(s: Source, supplied: Field)
    ensures Matches(Stored(Build(s, supplied)), s, supplied) <==> Complete(Build(s, supplied))
  {
    BuildIsNormal(s, supplied);
    CompleteVouches(Build(s, supplied));
  }

  /** Two records that match one signal name the same lifecycle, up to padding and letter case. */
  lemma MatchingIsUnique(a: Record, b: Record, s: Source, supplied: Field)
    requires Matches(a, s, supplied) && Matches(b, s, supplied)
    ensures Actual(a) == Actual(b) && Complete(Actual(a))
    ensures Matches(Stored(Actual(a)), s, supplied)
  {
    BuiltProvenanceMatchesItsSignal(s, supplied);
  }

  /** The record a value comes from: the signal itself or its metadata. */
  function Part(s: Source, own: bool): Record
    requires s.meta.Fields?
  {
    if own then s.signal else s.meta.r
  }

  predicate Contradict(f: Field, g: Field, lower: bool) {
    Present(f) && Present(g) && (!f.Text? || !g.Text? || Normal(f.s, lower) != Normal(g.s, lower))
  }

  /** One signal never vouches for two different orders, clients, modes or opportunities,
      wherever in the signal or its metadata the two values stand. */
  lemma ContradictionNeverMatches(
      stored: Record, s: Source, supplied: Field, x: bool, k: Key, y: bool, l: Key, names: seq<Key>, lower: bool)
    requires s.meta.Fields? && names in {SIGNAL, CANONICAL, CLIENT, MODE, ORDER} && lower == (names in {CLIENT, MODE})
    requires k in names && l in names && Contradict(Get(Part(s, x), k), Get(Part(s, y), l), lower)
    ensures !Matches(stored, s, supplied)
  {
    ContradictionIsNoticed(s, x, k, y, l, names, lower);
    NothingFromContradictions(Resolve(s, SIGNAL, false), Resolve(s, CANONICAL, false), Resolve(s, CLIENT, true),
                              Resolve(s, MODE, true), Resolve(s, ORDER, false), supplied);
  }

  /** Nor for an order other than the caller's. */
  lemma ForeignOrderNeverMatches(stored: Record, s: Source, supplied: string)
    requires Resolve(s, ORDER, false).Some? && Resolve(s, ORDER, false).value != ""
    requires Trim(supplied) != "" && Trim(supplied) != Resolve(s, ORDER, false).value
    ensures !Matches(stored, s, Text(supplied))
  {
    assert JoinOrder(Resolve(s, ORDER, false), Text(supplied)).None?;
  }

  lemma ContradictionIsNoticed(s: Source, x: bool, k: Key, y: bool, l: Key, names: seq<Key>, lower: bool)
    requires s.meta.Fields? && k in names && l in names && Contradict(Get(Part(s, x), k), Get(Part(s, y), l), lower)
    ensures Resolve(s, names, lower).None?
  {
    PresentIsListed(Part(s, x), names, lower, k);
    PresentIsListed(Part(s, y), names, lower, l);
    var here, there := Values(s.signal, names, lower), Values(s.meta.r, names, lower);
    if here.Some? && there.Some? {
      var all := here.value + there.value;
      assert Normal(Get(Part(s, x), k).s, lower) in all && Normal(Get(Part(s, y), l).s, lower) in all;
    }
  }

  lemma NothingFromContradictions(id: Option<string>, canonical: Option<string>, client: Option<string>,
      mode: Option<string>, own: Option<string>, supplied: Field)
    requires id.None? || canonical.None? || client.None? || mode.None? || own.None?
    ensures !Complete(Assemble(id, canonical, client, mode, JoinOrder(own, supplied)))
  {
  }

  lemma {:induction false} PresentIsListed(r: Record, names: seq<Key>, lower: bool, k: Key)
    requires k in names && Present(Get(r, k))
    ensures Values(r, names, lower).Some?
        ==> Get(r, k).Text? && Normal(Get(r, k).s, lower) in Values(r, names, lower).value
  {
    if names[0] != k {
      PresentIsListed(r, names[1..], lower, k);
    }
  }
}
