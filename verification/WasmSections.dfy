/**
 * The WebAssembly section codec of kryon-protocol/infra/deploy/optimize-wasm.py (sections 5.2.2,
 * 5.5.2 and 5.5.3 of the WebAssembly Core Specification): unbounded LEB128 numbers, splitting a
 * module into sections, joining sections into a module, and the filter in between.
 *
 * Python's UTF-8 decoder (`utf8`) and the XDR tool that blanks doc strings (`docs`) are foreign and
 * appear as parameters; a decoded name is represented by the bytes it was decoded from.
 */
module WasmSections {
  import opened Wrappers
  import opened Sequences

  type byte = x: int | 0 <= x < 256

  type Bytes = seq<byte>

  // ----- LEB128 -----

  /** The number at `i` and the index after it; None where Python raises IndexError. */
  function ReadUleb(data: Bytes, i: nat): (r: Option<(nat, nat)>)
    ensures r.Some? ==> i < r.value.1 <= |data|
    decreases |data| - i
  {
    if i >= |data| then None
    else if data[i] < 128 then Some((data[i], i + 1))
    else match ReadUleb(data, i + 1)
      case None => None
      case Some((v, j)) => Some((data[i] - 128 + 128 * v, j))
  }

  function WriteUleb(n: nat): Bytes {
    if n < 128 then [n] else [n % 128 + 128] + WriteUleb(n / 128)
  }

  function Pow2(n: nat): nat { if n == 0 then 1 else 2 * Pow2(n - 1) }

  lemma ShiftSeven(n: nat)
    ensures Pow2(n + 7) == 128 * Pow2(n)
  {
    assert Pow2(n + 7) == 2 * Pow2(n + 6) == 4 * Pow2(n + 5) == 8 * Pow2(n + 4);
    assert Pow2(n + 4) == 2 * Pow2(n + 3) == 4 * Pow2(n + 2) == 8 * Pow2(n + 1);
  }

  /** What a number read at a later digit is worth, given the digits before it. */
  function Shifted(result: nat, weight: nat, r: Option<(nat, nat)>): Option<(nat, nat)> {
    match r
    case None => None
    case Some((v, j)) => Some((result + weight * v, j))
  }

  lemma ShiftedStep(data: Bytes, i: nat, result: nat, weight: nat)
    requires i < |data| && data[i] >= 128
    ensures Shifted(result, weight, ReadUleb(data, i))
         == Shifted(result + (data[i] - 128) * weight, 128 * weight, ReadUleb(data, i + 1))
  {
    if ReadUleb(data, i + 1).Some? {
      Distribute(weight, data[i] - 128, ReadUleb(data, i + 1).value.0);
    }
  }

  lemma Distribute(weight: nat, low: nat, v: nat)
    ensures weight * (low + 128 * v) == low * weight + 128 * weight * v
  {
  }

  lemma DigitsDisjoint(result: nat, weight: nat, low: nat)
    requires result < weight && low < 128
    ensures result + low * weight < 128 * weight
  {
    assert (127 - low) * weight >= 0;
    assert 127 * weight - low * weight == (127 - low) * weight;
  }

  lemma Commutes(a: nat, b: nat)
    ensures a * b == b * a
  {
  }

  /** One turn of the reading loop; the new bits lie above the old ones. */
  lemma ReadUlebStep(data: Bytes, i: nat, result: nat, shift: nat, next: nat)
    requires i < |data| && result < Pow2(shift) && next == result + data[i] % 128 * Pow2(shift)
    ensures next < Pow2(shift + 7)
    ensures Shifted(result, Pow2(shift), ReadUleb(data, i))
         == if data[i] < 128 then Some((next, i + 1)) else Shifted(next, Pow2(shift + 7), ReadUleb(data, i + 1))
  {
    var weight := Pow2(shift);
    ShiftSeven(shift);
    DigitsDisjoint(result, weight, data[i] % 128);
    if data[i] >= 128 {
      assert data[i] % 128 == data[i] - 128;
      ShiftedStep(data, i, result, weight);
    } else {
      assert data[i] % 128 == data[i];
      Commutes(weight, data[i]);
    }
  }

  /** The bits of `result` and of the shifted digit do not overlap, so the source's `|=` is a sum. */
  method ReadUlebAt(data: Bytes, start: nat) returns (r: Option<(nat, nat)>)
    ensures r == ReadUleb(data, start)
  {
    var result: nat, shift: nat, i := 0, 0, start;
    while i < |data|
      invariant result < Pow2(shift)
      invariant ReadUleb(data, start) == Shifted(result, Pow2(shift), ReadUleb(data, i))
    {
      var b := data[i];
      var next := result + b % 128 * Pow2(shift);
      ReadUlebStep(data, i, result, shift, next);
      i := i + 1;
      result := next;
      if b < 128 { return Some((result, i)); }
      shift := shift + 7;
    }
    return None;
  }

  method WriteUlebBytes(n: nat) returns (out: Bytes)
    ensures out == WriteUleb(n)
  {
    out := [];
    var rest := n;
    while true
      invariant out + WriteUleb(rest) == WriteUleb(n)
      decreases rest
    {
      var b := rest % 128;
      if rest / 128 == 0 {
        return out + [b];
      }
      assert out + ([b + 128] + WriteUleb(rest / 128)) == (out + [b + 128]) + WriteUleb(rest / 128);
      out, rest := out + [b + 128], rest / 128;
    }
  }

  /** Reading a written number gives it back and stops right behind it, whatever surrounds it. */
  lemma {:induction false} UlebRoundTrip(pre: Bytes, n: nat, rest: Bytes)
    ensures ReadUleb(pre + WriteUleb(n) + rest, |pre|) == Some((n, |pre| + |WriteUleb(n)|))
    decreases n
  {
    if n >= 128 {
      var b: byte := n % 128 + 128;
      UlebRoundTrip(pre + [b], n / 128, rest);
      assert pre + WriteUleb(n) + rest == (pre + [b]) + WriteUleb(n / 128) + rest;
    }
  }

  /** A number is in its shortest form exactly when its last byte is not a superfluous zero. */
  predicate MinimalUleb(data: Bytes, i: nat)
    requires ReadUleb(data, i).Some?
  {
    var j := ReadUleb(data, i).value.1;
    j == i + 1 || data[j - 1] != 0
  }

  lemma {:induction false} UlebPositive(data: Bytes, i: nat)
    requires ReadUleb(data, i).Some? && MinimalUleb(data, i) && ReadUleb(data, i).value.1 > i + 1
    ensures ReadUleb(data, i).value.0 >= 128
    decreases |data| - i
  {
    if ReadUleb(data, i + 1).value.1 > i + 2 {
      UlebPositive(data, i + 1);
    }
  }

  /** Writing a read number gives the same bytes exactly when they were in shortest form. */
  lemma {:induction false} UlebCanonicalIff(data: Bytes, i: nat)
    requires ReadUleb(data, i).Some?
    ensures var (n, j) := ReadUleb(data, i).value;
      data[i..j] == WriteUleb(n) <==> MinimalUleb(data, i)
    decreases |data| - i
  {
    var (n, j) := ReadUleb(data, i).value;
    if data[i] >= 128 {
      var (v, _) := ReadUleb(data, i + 1).value;
      UlebCanonicalIff(data, i + 1);
      assert data[i..j] == [data[i]] + data[i + 1..j];
      assert n / 128 == v && n % 128 == data[i] - 128;
      if MinimalUleb(data, i) {
        UlebPositive(data, i);
      } else {
        assert |data[i..j]| >= 2 && data[i..j][|data[i..j]| - 1] == 0;
        WrittenLast(n);
      }
    }
  }

  lemma {:induction false} WrittenLast(n: nat)
    ensures |WriteUleb(n)| == 1 || WriteUleb(n)[|WriteUleb(n)| - 1] != 0
  {
    if n >= 128 {
      WrittenLast(n / 128);
    }
  }

  // ----- sections -----

  datatype Error = NotWasm | OutOfBytes | BadName

  datatype Section = Section(id: byte, name: Option<Bytes>, body: Bytes)

  const MAGIC: Bytes := [0, 97, 115, 109, 1, 0, 0, 0]

  /** Python slices clamp at the end of the data. */
  function Slice(data: Bytes, i: nat, j: nat): Bytes
    requires i <= j
  {
    var n := |data|;
    data[if i < n then i else n..if j < n then j else n]
  }

  function NameOf(id: byte, body: Bytes, utf8: Bytes -> bool): Result<Option<Bytes>, Error> {
    if id != 0 then Ok(None)
    else match ReadUleb(body, 0)
      case None => Err(OutOfBytes)
      case Some((n, j)) => if utf8(Slice(body, j, j + n)) then Ok(Some(Slice(body, j, j + n))) else Err(BadName)
  }

  /** The sections from index `i` on; a last section that is cut short is taken as it is. */
  function SplitFrom(wasm: Bytes, i: nat, utf8: Bytes -> bool): Result<seq<Section>, Error>
    decreases |wasm| - i
  {
    if i >= |wasm| then Ok([])
    else match ReadUleb(wasm, i + 1)
      case None => Err(OutOfBytes)
      case Some((size, j)) =>
        var body := Slice(wasm, j, j + size);
        match NameOf(wasm[i], body, utf8)
        case Err(e) => Err(e)
        case Ok(name) => Prepend(Section(wasm[i], name, body), SplitFrom(wasm, j + size, utf8))
  }

  function Prepend(s: Section, rest: Result<seq<Section>, Error>): Result<seq<Section>, Error> {
    if rest.Ok? then Ok([s] + rest.value) else rest
  }

  function Split(wasm: Bytes, utf8: Bytes -> bool): Result<seq<Section>, Error> {
    if Slice(wasm, 0, 8) != MAGIC then Err(NotWasm) else SplitFrom(wasm, 8, utf8)
  }

  function Encode(s: Section): Bytes { [s.id] + WriteUleb(|s.body|) + s.body }

  function JoinBodies(sections: seq<Section>): Bytes {
    if sections == [] then [] else Encode(sections[0]) + JoinBodies(sections[1..])
  }

  function Join(sections: seq<Section>): Bytes { MAGIC + JoinBodies(sections) }

  /** The name of a custom section, read from its body. */
  method ReadName(id: byte, body: Bytes, utf8: Bytes -> bool) returns (r: Result<Option<Bytes>, Error>)
    ensures r == NameOf(id, body, utf8)
  {
    if id != 0 { return Ok(None); }
    var nlen := ReadUlebAt(body, 0);
    if nlen.None? { return Err(OutOfBytes); }
    var (n, j) := nlen.value;
    var name := Slice(body, j, j + n);
    if !utf8(name) { return Err(BadName); }
    return Ok(Some(name));
  }

  /** `sections` read so far, in front of what the rest of the module splits into. */
  function After(sections: seq<Section>, rest: Result<seq<Section>, Error>): Result<seq<Section>, Error> {
    if rest.Ok? then Ok(sections + rest.value) else rest
  }

  lemma AfterPrepend(sections: seq<Section>, s: Section, rest: Result<seq<Section>, Error>)
    ensures After(sections, Prepend(s, rest)) == After(sections + [s], rest)
  {
    if rest.Ok? { assert sections + ([s] + rest.value) == (sections + [s]) + rest.value; }
  }

  lemma AfterNone(r: Result<seq<Section>, Error>)
    ensures After([], r) == r
  {
    if r.Ok? { assert [] + r.value == r.value; }
  }

  /** One section read: it moves from what is left to what is done. */
  lemma NextSection(sections: seq<Section>, wasm: Bytes, i: nat, utf8: Bytes -> bool, n: nat, j: nat,
    name: Option<Bytes>)
    requires i < |wasm| && ReadUleb(wasm, i + 1) == Some((n, j)) &&
      NameOf(wasm[i], Slice(wasm, j, j + n), utf8) == Ok(name)
    ensures var s := Section(wasm[i], name, Slice(wasm, j, j + n));
      After(sections, SplitFrom(wasm, i, utf8)) == After(sections + [s], SplitFrom(wasm, j + n, utf8))
  {
    AfterPrepend(sections, Section(wasm[i], name, Slice(wasm, j, j + n)), SplitFrom(wasm, j + n, utf8));
  }

  method SplitSections(wasm: Bytes, utf8: Bytes -> bool) returns (r: Result<seq<Section>, Error>)
    ensures r == Split(wasm, utf8)
  {
    if Slice(wasm, 0, 8) != MAGIC { return Err(NotWasm); }
    var sections: seq<Section> := [];
    var i := 8;
    AfterNone(SplitFrom(wasm, 8, utf8));
    while i < |wasm|
      invariant After(sections, SplitFrom(wasm, i, utf8)) == SplitFrom(wasm, 8, utf8)
      decreases |wasm| - i
    {
      var sid := wasm[i];
      var size := ReadUlebAt(wasm, i + 1);
      if size.None? { return Err(OutOfBytes); }
      var (n, j) := size.value;
      var body := Slice(wasm, j, j + n);
      var name := ReadName(sid, body, utf8);
      if name.Err? { return Err(name.error); }
      NextSection(sections, wasm, i, utf8, n, j, name.value);
      sections := sections + [Section(sid, name.value, body)];
      i := j + n;
    }
    assert sections + [] == sections;
    return Ok(sections);
  }

  method JoinSections(sections: seq<Section>) returns (out: Bytes)
    ensures out == Join(sections)
  {
    out := MAGIC;
    for i := 0 to |sections|
      invariant out + JoinBodies(sections[i..]) == Join(sections)
    {
      var s := sections[i];
      var size := WriteUlebBytes(|s.body|);
      assert out + (Encode(s) + JoinBodies(sections[i + 1..])) == (out + Encode(s)) + JoinBodies(sections[i + 1..]);
      assert out + [s.id] + size + s.body == out + Encode(s);
      out := out + [s.id];
      out := out + size;
      out := out + s.body;
    }
  }

  // ----- join, then split -----

  predicate Consistent(s: Section, utf8: Bytes -> bool) { NameOf(s.id, s.body, utf8) == Ok(s.name) }

  /** The first section, under the name its body spells, in front of the others. */
  function Named(s: Section, utf8: Bytes -> bool, rest: Result<seq<Section>, Error>): Result<seq<Section>, Error> {
    match NameOf(s.id, s.body, utf8)
    case Err(e) => Err(e)
    case Ok(name) => Prepend(s.(name := name), rest)
  }

  /** The sections with their names read from their bodies again. */
  function Renamed(sections: seq<Section>, utf8: Bytes -> bool): Result<seq<Section>, Error> {
    if sections == [] then Ok([]) else Named(sections[0], utf8, Renamed(sections[1..], utf8))
  }

  lemma ReadEncoded(w: Bytes, i: nat, s: Section, tail: Bytes)
    requires i <= |w| && w[i..] == Encode(s) + tail
    ensures var j := i + 1 + |WriteUleb(|s.body|)|;
      && i < |w| && w[i] == s.id
      && ReadUleb(w, i + 1) == Some((|s.body|, j)) && w[i + 1..j] == WriteUleb(|s.body|)
      && Slice(w, j, j + |s.body|) == s.body
      && j + |s.body| <= |w| && w[j + |s.body|..] == tail
  {
    var head, j := w[..i] + [s.id], i + 1 + |WriteUleb(|s.body|)|;
    assert w == w[..i] + w[i..];
    assert w == head + WriteUleb(|s.body|) + (s.body + tail);
    UlebRoundTrip(head, |s.body|, s.body + tail);
  }

  lemma SplitStep(w: Bytes, i: nat, j: nat, s: Section, utf8: Bytes -> bool)
    requires i < |w| && w[i] == s.id && ReadUleb(w, i + 1) == Some((|s.body|, j)) && Slice(w, j, j + |s.body|) == s.body
    ensures SplitFrom(w, i, utf8) == Named(s, utf8, SplitFrom(w, j + |s.body|, utf8))
  {
  }

  /** From index `i` on, `w` reads as `sections` and nothing else. */
  predicate LaidOut(w: Bytes, i: nat, sections: seq<Section>)
    decreases |sections|
  {
    if sections == [] then i == |w|
    else
      var s := sections[0];
      && i < |w| && w[i] == s.id && ReadUleb(w, i + 1).Some?
      && var (size, j) := ReadUleb(w, i + 1).value;
         size == |s.body| && Slice(w, j, j + size) == s.body && LaidOut(w, j + size, sections[1..])
  }

  lemma {:induction false} JoinedLaidOut(w: Bytes, i: nat, sections: seq<Section>)
    requires i <= |w| && w[i..] == JoinBodies(sections)
    ensures LaidOut(w, i, sections)
    decreases |sections|
  {
    if sections != [] {
      var s, tail := sections[0], JoinBodies(sections[1..]);
      assert w[i..] == Encode(s) + tail;
      ReadEncoded(w, i, s, tail);
      JoinedLaidOut(w, i + 1 + |WriteUleb(|s.body|)| + |s.body|, sections[1..]);
    }
  }

  lemma {:induction false} SplitLaidOut(w: Bytes, i: nat, sections: seq<Section>, utf8: Bytes -> bool)
    requires LaidOut(w, i, sections)
    ensures SplitFrom(w, i, utf8) == Renamed(sections, utf8)
    decreases |sections|
  {
    if sections != [] {
      var (size, j) := ReadUleb(w, i + 1).value;
      SplitStep(w, i, j, sections[0], utf8);
      SplitLaidOut(w, j + size, sections[1..], utf8);
    }
  }

  lemma {:induction false} RenamedIff(sections: seq<Section>, utf8: Bytes -> bool)
    ensures Renamed(sections, utf8) == Ok(sections) <==> forall s :: s in sections ==> Consistent(s, utf8)
  {
    if sections != [] {
      var s, rest := sections[0], sections[1..];
      RenamedIff(rest, utf8);
      assert sections == [s] + rest;
      var r := Renamed(sections, utf8);
      if Consistent(s, utf8) {
        assert s.(name := s.name) == s;
        if r.Ok? { assert r.value[1..] == Renamed(rest, utf8).value; }
        assert forall t :: t in sections <==> t == s || t in rest;
      } else {
        assert s in sections;
        assert r.Ok? ==> r.value[0] != s;
      }
    }
  }

  /** Joined sections split into themselves exactly when each carries the name its body spells. */
  lemma SplitJoinIff(sections: seq<Section>, utf8: Bytes -> bool)
    ensures Split(Join(sections), utf8) == Ok(sections) <==> forall s :: s in sections ==> Consistent(s, utf8)
  {
    assert Join(sections)[..8] == MAGIC;
    JoinedLaidOut(Join(sections), 8, sections);
    SplitLaidOut(Join(sections), 8, sections, utf8);
    RenamedIff(sections, utf8);
  }

  // ----- split, then join -----

  /** Every section size is in shortest form, and no section is cut short. */
  predicate MinimalFrom(wasm: Bytes, i: nat)
    decreases |wasm| - i
  {
    i == |wasm| || (i < |wasm| && ReadUleb(wasm, i + 1).Some? && MinimalUleb(wasm, i + 1) &&
      var (size, j) := ReadUleb(wasm, i + 1).value;
      j + size <= |wasm| && MinimalFrom(wasm, j + size))
  }

  lemma JoinBack(wasm: Bytes, i: nat, s: Section, rest: Bytes)
    requires i <= |wasm| && wasm[i..] == Encode(s) + rest
    ensures ReadUleb(wasm, i + 1).Some? && MinimalUleb(wasm, i + 1)
    ensures var (size, j) := ReadUleb(wasm, i + 1).value; j + size <= |wasm| && rest == wasm[j + size..]
  {
    ReadEncoded(wasm, i, s, rest);
    UlebCanonicalIff(wasm, i + 1);
  }

  lemma JoinExact(wasm: Bytes, i: nat, j: nat, size: nat, s: Section)
    requires i + 1 <= j && j + size <= |wasm| && s.id == wasm[i]
    requires wasm[i + 1..j] == WriteUleb(size) && s.body == wasm[j..j + size]
    ensures Encode(s) + wasm[j + size..] == wasm[i..]
  {
    assert wasm[i..] == [wasm[i]] + wasm[i + 1..j] + wasm[j..j + size] + wasm[j + size..];
  }

  lemma {:induction false} MinimalRejoins(wasm: Bytes, i: nat, utf8: Bytes -> bool)
    requires MinimalFrom(wasm, i) && SplitFrom(wasm, i, utf8).Ok?
    ensures JoinBodies(SplitFrom(wasm, i, utf8).value) == wasm[i..]
    decreases |wasm| - i
  {
    if i < |wasm| {
      var (size, j) := ReadUleb(wasm, i + 1).value;
      MinimalRejoins(wasm, j + size, utf8);
      UlebCanonicalIff(wasm, i + 1);
      JoinExact(wasm, i, j, size, SplitFrom(wasm, i, utf8).value[0]);
    }
  }

  lemma {:induction false} JoinedMinimal(wasm: Bytes, i: nat, sections: seq<Section>)
    requires i <= |wasm| && JoinBodies(sections) == wasm[i..]
    ensures MinimalFrom(wasm, i)
    decreases |sections|
  {
    if sections != [] {
      assert wasm[i..] == Encode(sections[0]) + JoinBodies(sections[1..]);
      JoinBack(wasm, i, sections[0], JoinBodies(sections[1..]));
      var (size, j) := ReadUleb(wasm, i + 1).value;
      JoinedMinimal(wasm, j + size, sections[1..]);
    }
  }

  /** A module survives splitting and joining exactly when its sizes are minimal and it is complete. */
  lemma JoinSplitIff(wasm: Bytes, utf8: Bytes -> bool)
    requires Split(wasm, utf8).Ok?
    ensures Join(Split(wasm, utf8).value) == wasm <==> MinimalFrom(wasm, 8)
  {
    assert |wasm| >= 8 && wasm == MAGIC + wasm[8..];
    var joined := JoinBodies(Split(wasm, utf8).value);
    assert MAGIC + joined == wasm <==> joined == wasm[8..] by {
      assert (MAGIC + joined)[8..] == joined;
    }
    if MinimalFrom(wasm, 8) { MinimalRejoins(wasm, 8, utf8); }
    if joined == wasm[8..] { JoinedMinimal(wasm, 8, Split(wasm, utf8).value); }
  }

  /** A cut-off module is not rejected: it is silently rewritten into a different one. */
  lemma TruncatedModuleAccepted(utf8: Bytes -> bool)
    ensures var wasm := MAGIC + [1, 5, 7];
      && Split(wasm, utf8) == Ok([Section(1, None, [7])])
      && Join([Section(1, None, [7])]) == MAGIC + [1, 1, 7]
  {
    var wasm := MAGIC + [1, 5, 7];
    assert ReadUleb(wasm, 9) == Some((5, 10));
    assert Slice(wasm, 10, 15) == [7];
    assert Slice(wasm, 0, 8) == MAGIC;
    assert SplitFrom(wasm, 15, utf8) == Ok([]);
    assert wasm[8] == 1 && NameOf(1, [7], utf8) == Ok(None);
    assert SplitFrom(wasm, 8, utf8) == Prepend(Section(1, None, [7]), SplitFrom(wasm, 15, utf8));
    assert [Section(1, None, [7])] + [] == [Section(1, None, [7])];
    assert JoinBodies([Section(1, None, [7])]) == [1, 1, 7] + JoinBodies([Section(1, None, [7])][1..]);
  }

  // ----- the filter -----

  /** "contractspecv0" */
  const SPEC_NAME: Bytes := [99, 111, 110, 116, 114, 97, 99, 116, 115, 112, 101, 99, 118, 48]

  /** "contractmetav0" */
  const META_NAME: Bytes := [99, 111, 110, 116, 114, 97, 99, 116, 109, 101, 116, 97, 118, 48]

  predicate Dropped(s: Section, stripSpec: bool) {
    stripSpec && s.id == 0 && (s.name == Some(SPEC_NAME) || s.name == Some(META_NAME))
  }

  predicate IsSpec(s: Section) { s.id == 0 && s.name == Some(SPEC_NAME) }

  function RewriteSpec(s: Section, docs: Bytes -> Bytes): Section {
    if IsSpec(s) then
      var prefix := WriteUleb(|SPEC_NAME|) + SPEC_NAME;
      s.(body := prefix + docs(Slice(s.body, |prefix|, if |prefix| <= |s.body| then |s.body| else |prefix|)))
    else s
  }

  function Filtered(sections: seq<Section>, stripSpec: bool, docs: Bytes -> Bytes): seq<Section> {
    if sections == [] then []
    else
      (if Dropped(sections[0], stripSpec) then [] else [RewriteSpec(sections[0], docs)])
      + Filtered(sections[1..], stripSpec, docs)
  }

  method BlankSpecDocs(s: Section, docs: Bytes -> Bytes) returns (t: Section)
    ensures t == RewriteSpec(s, docs)
  {
    t := s;
    if s.id == 0 && s.name == Some(SPEC_NAME) {
      var size := WriteUlebBytes(|SPEC_NAME|);
      var prefix := size + SPEC_NAME;
      t := s.(body := prefix + docs(Slice(s.body, |prefix|, if |prefix| <= |s.body| then |s.body| else |prefix|)));
    }
  }

  lemma FilteredStep(all: seq<Section>, i: nat, stripSpec: bool, docs: Bytes -> Bytes)
    requires i < |all|
    ensures Filtered(all[i..], stripSpec, docs)
         == (if Dropped(all[i], stripSpec) then [] else [RewriteSpec(all[i], docs)]) +
           Filtered(all[i + 1..], stripSpec, docs)
  {
    assert all[i..][1..] == all[i + 1..];
  }

  lemma FilteredOn(done: seq<Section>, all: seq<Section>, i: nat, stripSpec: bool, docs: Bytes -> Bytes)
    requires i < |all|
    ensures done + Filtered(all[i..], stripSpec, docs)
         == (if Dropped(all[i], stripSpec) then done else done + [RewriteSpec(all[i], docs)])
            + Filtered(all[i + 1..], stripSpec, docs)
  {
    FilteredStep(all, i, stripSpec, docs);
    var rest := Filtered(all[i + 1..], stripSpec, docs);
    assert done + ([] + rest) == done + rest;
    assert done + ([RewriteSpec(all[i], docs)] + rest) == (done + [RewriteSpec(all[i], docs)]) + rest;
  }

  /** The loop of `optimize`. */
  method FilterSections(all: seq<Section>, stripSpec: bool, docs: Bytes -> Bytes) returns (sections: seq<Section>)
    ensures sections == Filtered(all, stripSpec, docs)
  {
    sections := [];
    for i := 0 to |all|
      invariant sections + Filtered(all[i..], stripSpec, docs) == Filtered(all, stripSpec, docs)
    {
      FilteredOn(sections, all, i, stripSpec, docs);
      if Dropped(all[i], stripSpec) { continue; }
      var t := BlankSpecDocs(all[i], docs);
      sections := sections + [t];
    }
  }

  /** `optimize` on what wasm-opt produced. */
  method Optimize(wasm: Bytes, stripSpec: bool, utf8: Bytes -> bool, docs: Bytes -> Bytes)
    returns (r: Result<Bytes, Error>)
    ensures Split(wasm, utf8).Err? ==> r == Err(Split(wasm, utf8).error)
    ensures Split(wasm, utf8).Ok? ==> r == Ok(Join(Filtered(Split(wasm, utf8).value, stripSpec, docs)))
  {
    var all := SplitSections(wasm, utf8);
    if all.Err? { return Err(all.error); }
    var sections := FilterSections(all.value, stripSpec, docs);
    var out := JoinSections(sections);
    return Ok(out);
  }

  lemma RewriteConsistent(s: Section, utf8: Bytes -> bool, docs: Bytes -> Bytes)
    requires Consistent(s, utf8)
    ensures Consistent(RewriteSpec(s, docs), utf8)
  {
    if IsSpec(s) {
      var body := RewriteSpec(s, docs).body;
      var tail := body[15..];
      UlebRoundTrip([], |SPEC_NAME|, SPEC_NAME + tail);
      assert body == [] + WriteUleb(|SPEC_NAME|) + (SPEC_NAME + tail);
      assert Slice(body, 1, 15) == SPEC_NAME;
    }
  }

  lemma {:induction false} SplitConsistent(wasm: Bytes, i: nat, utf8: Bytes -> bool)
    requires SplitFrom(wasm, i, utf8).Ok?
    ensures forall s :: s in SplitFrom(wasm, i, utf8).value ==> Consistent(s, utf8)
    decreases |wasm| - i
  {
    if i < |wasm| {
      var (size, j) := ReadUleb(wasm, i + 1).value;
      SplitConsistent(wasm, j + size, utf8);
    }
  }

  lemma {:induction false} FilteredConsistent(sections: seq<Section>, stripSpec: bool, utf8: Bytes -> bool,
    docs: Bytes -> Bytes)
    requires forall s :: s in sections ==> Consistent(s, utf8)
    ensures forall s :: s in Filtered(sections, stripSpec, docs) ==> Consistent(s, utf8)
  {
    if sections != [] {
      RewriteConsistent(sections[0], utf8, docs);
      FilteredConsistent(sections[1..], stripSpec, utf8, docs);
    }
  }

  /**
   * Whatever is dropped or rewritten, the output splits into exactly the sections that were kept;
   * those that are not the spec come through byte for byte and in order.
   */
  lemma OptimizedSplits(wasm: Bytes, stripSpec: bool, utf8: Bytes -> bool, docs: Bytes -> Bytes)
    requires Split(wasm, utf8).Ok?
    ensures var sections := Split(wasm, utf8).value;
      var kept := Filtered(sections, stripSpec, docs);
      && Split(Join(kept), utf8) == Ok(kept)
      && Filter((s: Section) => !IsSpec(s), kept) ==
        Filter((s: Section) => !IsSpec(s) && !Dropped(s, stripSpec), sections)
      && (stripSpec ==> forall s :: s in kept ==> !IsSpec(s))
  {
    var sections := Split(wasm, utf8).value;
    SplitConsistent(wasm, 8, utf8);
    FilteredConsistent(sections, stripSpec, utf8, docs);
    SplitJoinIff(Filtered(sections, stripSpec, docs), utf8);
    OthersUntouched(sections, stripSpec, docs);
  }

  lemma {:induction false} OthersUntouched(sections: seq<Section>, stripSpec: bool, docs: Bytes -> Bytes)
    ensures Filter((s: Section) => !IsSpec(s), Filtered(sections, stripSpec, docs))
         == Filter((s: Section) => !IsSpec(s) && !Dropped(s, stripSpec), sections)
    ensures stripSpec ==> forall s :: s in Filtered(sections, stripSpec, docs) ==> !IsSpec(s)
  {
    if sections != [] {
      OthersUntouched(sections[1..], stripSpec, docs);
      var rest := Filtered(sections[1..], stripSpec, docs);
      if Dropped(sections[0], stripSpec) {
        assert [] + rest == rest;
      } else {
        assert ([RewriteSpec(sections[0], docs)] + rest)[1..] == rest;
      }
    }
  }

  function Letter(text: string, i: nat): byte
    requires i < |text| && forall c :: c in text ==> c < 128 as char
  {
    assert text[i] in text;
    text[i] as int
  }

  function Ascii(text: string): Bytes
    requires forall c :: c in text ==> c < 128 as char
  {
    seq(|text|, i requires 0 <= i < |text| => Letter(text, i))
  }

  /** A custom section whose own bytes spell this name. */
  predicate Spells(s: Section, text: string)
    requires forall c :: c in text ==> c < 128 as char
  {
    s.id == 0 && ReadUleb(s.body, 0).Some? &&
      var (n, j) := ReadUleb(s.body, 0).value;
      Slice(s.body, j, j + n) == Ascii(text)
  }

  lemma NamesSpelled()
    ensures SPEC_NAME == Ascii("contractspecv0") && META_NAME == Ascii("contractmetav0")
  {
  }

  lemma SpellsIff(s: Section, utf8: Bytes -> bool)
    requires Consistent(s, utf8)
    ensures IsSpec(s) <==> Spells(s, "contractspecv0")
    ensures Dropped(s, true) <==> SpecOrMeta(s)
    ensures !Dropped(s, false)
  {
    NamesSpelled();
  }

  predicate SpecOrMeta(s: Section) { Spells(s, "contractspecv0") || Spells(s, "contractmetav0") }

  /** Where in `sections` the output's sections stood: in order, and all but those that are stripped. */
  ghost predicate StripsTo(sections: seq<Section>, out: seq<Section>, at: seq<nat>) {
    && |at| == |out|
    && (forall i :: 0 <= i < |at| ==> at[i] < |sections| && out[i] == sections[at[i]])
    && (forall i, j :: 0 <= i < j < |at| ==> at[i] < at[j])
    && forall p: nat :: p < |sections| ==> (p in at <==> !SpecOrMeta(sections[p]))
  }

  lemma {:induction false} FilteredIsFilter(sections: seq<Section>, docs: Bytes -> Bytes)
    ensures Filtered(sections, true, docs) == Filter((s: Section) => !Dropped(s, true), sections)
  {
    if sections != [] { FilteredIsFilter(sections[1..], docs); }
  }

  /**
   * With --strip-spec the output splits into the input's sections, unchanged and in order, without
   * the custom sections named contractspecv0 and contractmetav0, and without those only.
   */
  lemma StripRemovesOnlySpecAndMeta(wasm: Bytes, utf8: Bytes -> bool, docs: Bytes -> Bytes) returns (at: seq<nat>)
    requires Split(wasm, utf8).Ok?
    ensures var sections := Split(wasm, utf8).value;
      var out := Split(Join(Filtered(sections, true, docs)), utf8);
      out.Ok? && StripsTo(sections, out.value, at)
  {
    var sections := Split(wasm, utf8).value;
    OptimizedSplits(wasm, true, utf8, docs);
    SplitConsistent(wasm, 8, utf8);
    FilteredIsFilter(sections, docs);
    FilterPlaces((s: Section) => !Dropped(s, true), sections);
    at := Places((s: Section) => !Dropped(s, true), sections);
    forall p: nat | p < |sections| ensures p in at <==> !SpecOrMeta(sections[p]) { SpellsIff(sections[p], utf8); }
  }

  lemma {:induction false} FilteredKeeps(sections: seq<Section>, docs: Bytes -> Bytes)
    ensures |Filtered(sections, false, docs)| == |sections|
    ensures forall i :: 0 <= i < |sections| ==> Filtered(sections, false, docs)[i] == RewriteSpec(sections[i], docs)
  {
    if sections != [] { FilteredKeeps(sections[1..], docs); }
  }

  /** The spec with its docs blanked: its name as before, and what the blanking makes of the bytes from 15 on. */
  ghost predicate SpecBlanked(s: Section, t: Section, docs: Bytes -> Bytes) {
    && |s.body| >= 15 && t.id == 0 && Spells(t, "contractspecv0")
    && t.body == [14] + Ascii("contractspecv0") + docs(s.body[15..])
  }

  /** Without it no section is lost: each comes through unchanged and in its place, but for the spec. */
  lemma NothingLostWithoutStrip(wasm: Bytes, utf8: Bytes -> bool, docs: Bytes -> Bytes, i: nat)
    requires Split(wasm, utf8).Ok? && i < |Split(wasm, utf8).value|
    ensures var sections := Split(wasm, utf8).value;
      var out := Split(Join(Filtered(sections, false, docs)), utf8);
      && out.Ok? && |out.value| == |sections|
      && if Spells(sections[i], "contractspecv0") then SpecBlanked(sections[i], out.value[i], docs)
         else out.value[i] == sections[i]
  {
    var sections := Split(wasm, utf8).value;
    OptimizedSplits(wasm, false, utf8, docs);
    SplitConsistent(wasm, 8, utf8);
    FilteredKeeps(sections, docs);
    SpellsIff(sections[i], utf8);
    if Spells(sections[i], "contractspecv0") { SpecRewritten(sections[i], utf8, docs); }
  }

  lemma SpecRewritten(s: Section, utf8: Bytes -> bool, docs: Bytes -> Bytes)
    requires Consistent(s, utf8) && Spells(s, "contractspecv0")
    ensures SpecBlanked(s, RewriteSpec(s, docs), docs)
  {
    SpellsIff(s, utf8);
    NamesSpelled();
    RewriteConsistent(s, utf8, docs);
    SpellsIff(RewriteSpec(s, docs), utf8);
    SpecContentIff(s, utf8, docs);
    var (n, j) := ReadUleb(s.body, 0).value;
    assert |Slice(s.body, j, j + n)| == |SPEC_NAME| == 14;
    assert WriteUleb(|SPEC_NAME|) == [14] && Slice(s.body, 15, |s.body|) == s.body[15..];
  }

  /** Only a module that starts with the magic bytes and version 1 is taken for one. */
  lemma NotWasmIff(wasm: Bytes, utf8: Bytes -> bool)
    ensures Split(wasm, utf8) == Err(NotWasm)
       <==> !(|wasm| >= 8 && wasm[..8] == [0] + Ascii("asm") + [1, 0, 0, 0])
  {
    assert Ascii("asm") == [97, 115, 109];
    assert [0] + Ascii("asm") + [1, 0, 0, 0] == MAGIC;
    assert Slice(wasm, 0, 8) == if |wasm| >= 8 then wasm[..8] else wasm;
    LaterErrors(wasm, 8, utf8);
  }

  lemma {:induction false} LaterErrors(wasm: Bytes, i: nat, utf8: Bytes -> bool)
    ensures SplitFrom(wasm, i, utf8) != Err(NotWasm)
    decreases |wasm| - i
  {
    if i < |wasm| && ReadUleb(wasm, i + 1).Some? {
      var (size, j) := ReadUleb(wasm, i + 1).value;
      LaterErrors(wasm, j + size, utf8);
    }
  }

  /** What follows the name in a custom section. */
  function Content(body: Bytes): Bytes
    requires ReadUleb(body, 0).Some?
  {
    var (n, j) := ReadUleb(body, 0).value;
    Slice(body, j + n, if j + n <= |body| then |body| else j + n)
  }

  /**
   * The docs are blanked in the spec, and in nothing but the spec, exactly when the name length
   * took one byte: the rewrite skips as many bytes as it would itself have written.
   */
  lemma SpecContentIff(s: Section, utf8: Bytes -> bool, docs: Bytes -> Bytes)
    requires Consistent(s, utf8) && IsSpec(s)
    ensures var prefix := WriteUleb(|SPEC_NAME|) + SPEC_NAME;
      && ReadUleb(s.body, 0).Some?
      && RewriteSpec(s, docs).body == prefix + docs(Slice(s.body, 15, if 15 <= |s.body| then |s.body| else 15))
      && (Slice(s.body, 15, if 15 <= |s.body| then |s.body| else 15) == Content(s.body)
          <==> ReadUleb(s.body, 0).value.1 == 1)
  {
    var (n, j) := ReadUleb(s.body, 0).value;
    assert |Slice(s.body, j, j + n)| == 14;
  }

  /**
   * A spec section whose name length is spelled in two bytes and whose content is one byte: even a
   * blanking that changes nothing puts the last letter of the name in front of the content.
   */
  lemma LongNameLengthShiftsSpec(utf8: Bytes -> bool)
    requires utf8(SPEC_NAME)
    ensures var s := Section(0, Some(SPEC_NAME), [142, 0] + SPEC_NAME + [9]);
      && Consistent(s, utf8) && ReadUleb(s.body, 0).Some? && Content(s.body) == [9]
      && RewriteSpec(s, (docs: Bytes) => docs).body == [14] + SPEC_NAME + [48, 9]
  {
    var body := [142, 0] + SPEC_NAME + [9];
    assert ReadUleb(body, 1) == Some((0, 2));
    assert ReadUleb(body, 0) == Some((14, 2));
    assert Slice(body, 2, 16) == SPEC_NAME;
    assert Slice(body, 16, 17) == [9];
    assert WriteUleb(14) == [14];
    assert Slice(body, 15, 17) == [48, 9];
  }
}
