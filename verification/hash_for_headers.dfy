/** The read-only view of request headers that the dispatcher hands to header
    parameters: a logical header name such as `X-Api-Key` is translated into
    the key Rack uses for it in the request environment (`HTTP_X_API_KEY`). */
module HashForHeaders {
  import opened RubyHash

  /** Rack stores every request header under this prefix. */
  const HeaderPrefix: string := "HTTP_"

  predicate IsLowerAscii(c: char) {
    'a' <= c <= 'z'
  }

  predicate IsDashOrUnderscore(c: char) {
    c == '-' || c == '_'
  }

  /** `gsub(/-/, '_')`, one character at a time. */
  function DashToUnderscore(c: char): char {
    if c == '-' then '_' else c
  }

  /** Ruby's `upcase`, restricted to ASCII letters. */
  function UpcaseAscii(c: char): char {
    if IsLowerAscii(c) then (c as int - 32) as char else c
  }

  /** One character of a header name as it appears in the Rack key. */
  function FoldChar(c: char): char {
    UpcaseAscii(DashToUnderscore(c))
  }

  /** `s.gsub(/-/, '_')`: every dash replaced by an underscore, nothing else touched. */
  function Underscored(s: string): (r: string)
    ensures |r| == |s|
    ensures forall i :: 0 <= i < |s| ==> r[i] == DashToUnderscore(s[i])
    ensures '-' !in r
  {
    if s == [] then [] else [DashToUnderscore(s[0])] + Underscored(s[1..])
  }

  /** `s.upcase` on ASCII: every lower-case letter replaced by its capital. */
  function Upcase(s: string): (r: string)
    ensures |r| == |s|
    ensures forall i :: 0 <= i < |s| ==> r[i] == UpcaseAscii(s[i])
    ensures forall i :: 0 <= i < |r| ==> !IsLowerAscii(r[i])
  {
    if s == [] then [] else [UpcaseAscii(s[0])] + Upcase(s[1..])
  }

  /** `key_to_header_key`: the Rack environment key of a logical header name. */
  function KeyToHeaderKey(name: string): (k: string)
    ensures |k| == |name| + |HeaderPrefix|
    ensures k[..|HeaderPrefix|] == HeaderPrefix
    ensures forall i :: 0 <= i < |name| ==>
              k[|HeaderPrefix| + i] == FoldChar(name[i])
    ensures '-' !in k
    ensures forall i :: |HeaderPrefix| <= i < |k| ==> !IsLowerAscii(k[i])
  {
    HeaderPrefix + Upcase(Underscored(name))
  }

  /** Two characters a header name may use interchangeably: the same
      character, a dash and an underscore, or one ASCII letter in both cases. */
  predicate CharsEquivalent(c: char, d: char) {
    || c == d
    || (IsDashOrUnderscore(c) && IsDashOrUnderscore(d))
    || (IsLowerAscii(c) && d as int == c as int - 32)
    || (IsLowerAscii(d) && c as int == d as int - 32)
  }

  /** Header names that differ only in letter case and in dash versus underscore. */
  predicate NamesEquivalent(a: string, b: string) {
    |a| == |b| && forall i :: 0 <= i < |a| ==> CharsEquivalent(a[i], b[i])
  }

  /** A name already in Rack's spelling: no dash and no lower-case letter. */
  predicate IsCanonical(name: string) {
    forall i :: 0 <= i < |name| ==> name[i] != '-' && !IsLowerAscii(name[i])
  }

  lemma FoldedCharsEqualIff(c: char, d: char)
    ensures FoldChar(c) == FoldChar(d) <==> CharsEquivalent(c, d)
  {
  }

  lemma {:induction false} SameHeaderKeyImpliesEquivalent(a: string, b: string)
    requires KeyToHeaderKey(a) == KeyToHeaderKey(b)
    ensures NamesEquivalent(a, b)
  {
    var ka, kb := KeyToHeaderKey(a), KeyToHeaderKey(b);
    var n := |HeaderPrefix|;
    forall i | 0 <= i < |a|
      ensures CharsEquivalent(a[i], b[i])
    {
      assert ka[n + i] == kb[n + i];
      FoldedCharsEqualIff(a[i], b[i]);
    }
  }

  lemma {:induction false} EquivalentImpliesSameHeaderKey(a: string, b: string)
    requires NamesEquivalent(a, b)
    ensures KeyToHeaderKey(a) == KeyToHeaderKey(b)
  {
    var ka, kb := KeyToHeaderKey(a), KeyToHeaderKey(b);
    var n := |HeaderPrefix|;
    forall j | 0 <= j < |ka|
      ensures ka[j] == kb[j]
    {
      if j >= n {
        FoldedCharsEqualIff(a[j - n], b[j - n]);
      } else {
        assert ka[..n][j] == kb[..n][j];
      }
    }
  }

  /** Two header names reach the same environment key exactly when they
      differ only in letter case and in dash versus underscore. */
  lemma {:induction false} SameHeaderKeyIff(a: string, b: string)
    ensures KeyToHeaderKey(a) == KeyToHeaderKey(b) <==> NamesEquivalent(a, b)
  {
    if KeyToHeaderKey(a) == KeyToHeaderKey(b) {
      SameHeaderKeyImpliesEquivalent(a, b);
    }
    if NamesEquivalent(a, b) {
      EquivalentImpliesSameHeaderKey(a, b);
    }
  }

  /** A name already spelled as Rack spells it is only prefixed. */
  lemma {:induction false} CanonicalNameIsOnlyPrefixed(name: string)
    requires IsCanonical(name)
    ensures KeyToHeaderKey(name) == HeaderPrefix + name
  {
    var k := KeyToHeaderKey(name);
    forall j | 0 <= j < |k|
      ensures k[j] == (HeaderPrefix + name)[j]
    {
      if j < |HeaderPrefix| {
        assert k[..|HeaderPrefix|][j] == k[j];
      }
    }
  }

  /** Normalising twice gives the same key as normalising once: the suffix
      of a header key is itself canonical, so feeding it back through
      `key_to_header_key` rebuilds the same key. */
  lemma HeaderKeySuffixIsCanonical(name: string)
    ensures IsCanonical(KeyToHeaderKey(name)[|HeaderPrefix|..])
    ensures KeyToHeaderKey(KeyToHeaderKey(name)[|HeaderPrefix|..]) == KeyToHeaderKey(name)
  {
  }

  /** A `HashForHeaders` built over a request: `env` is `request.env`,
      whose values may be `nil`. */
  datatype HeaderHash<V> = HeaderHash(env: map<string, Nilable<V>>)

  /** `[]`: the environment value under the header key of `name`, `nil` if
      none. It consults the same key as `key?`: when `key?` is false it
      answers `nil`, and otherwise exactly what the environment stores there. */
  function Lookup<V>(h: HeaderHash<V>, name: string): (r: Nilable<V>)
    ensures HasKey(h, name) ==> r == h.env[KeyToHeaderKey(name)]
    ensures !HasKey(h, name) ==> r == Nil
  {
    Index(h.env, KeyToHeaderKey(name))
  }

  /** `key?`: whether the environment holds the header key of `name`. */
  function HasKey<V>(h: HeaderHash<V>, name: string): (b: bool)
  {
    KeyToHeaderKey(name) in h.env
  }

  /** Names that differ only in case or dash/underscore are indistinguishable
      through the header view. */
  lemma EquivalentNamesLookUpAlike<V>(h: HeaderHash<V>, a: string, b: string)
    requires NamesEquivalent(a, b)
    ensures Lookup(h, a) == Lookup(h, b)
    ensures HasKey(h, a) == HasKey(h, b)
  {
    SameHeaderKeyIff(a, b);
  }

  /** Environment entries outside the `HTTP_` namespace are never seen
      through the header view. */
  lemma NonHeaderEntriesAreInvisible<V>(h: HeaderHash<V>, key: string, v: Nilable<V>, name: string)
    requires |key| < |HeaderPrefix| || key[..|HeaderPrefix|] != HeaderPrefix
    ensures Lookup(HeaderHash(h.env[key := v]), name) == Lookup(h, name)
    ensures HasKey(HeaderHash(h.env[key := v]), name) == HasKey(h, name)
  {
  }

  /** A header sent under Rack's spelling `HTTP_<canonical>` is found under
      every logical name that differs from `canonical` only in letter case
      and in dash versus underscore (`X-Api-Key` finds `HTTP_X_API_KEY`). */
  lemma {:induction false} RackSpellingIsFound<V>(h: HeaderHash<V>, name: string, canonical: string)
    requires IsCanonical(canonical) && NamesEquivalent(name, canonical)
    requires HeaderPrefix + canonical in h.env
    ensures HasKey(h, name)
    ensures Lookup(h, name) == h.env[HeaderPrefix + canonical]
  {
    CanonicalNameIsOnlyPrefixed(canonical);
    EquivalentImpliesSameHeaderKey(name, canonical);
  }

  lemma ApiKeyHeaderExample<V>(v: V)
    ensures Lookup(HeaderHash(map[HeaderPrefix + "X_API_KEY" := Present(v)]), "X-Api-Key") == Present(v)
  {
    var canonical := "X_API_KEY";
    assert IsCanonical(canonical);
    assert NamesEquivalent("X-Api-Key", canonical);
    RackSpellingIsFound(HeaderHash(map[HeaderPrefix + canonical := Present(v)]), "X-Api-Key", canonical);
  }
}
