/**
 HTTP header maps as net/http keeps them: canonical names, each with the list of its values
 in arrival order. One char stands for one byte.
 */
module Headers {
  import opened Ascii
  import opened Sequences

  type HeaderMap = map<string, seq<string>>

  predicate IsLetter(c: char) { 'a' <= c <= 'z' || 'A' <= c <= 'Z' }

  /** A byte of a header name: the token characters of section 5.6.2 of RFC 9110. */
  predicate IsToken(c: char) {
    || IsLetter(c) || '0' <= c <= '9'
    || c == '!' || '#' <= c <= '\'' || c == '*' || c == '+' || c == '-' || c == '.'
    || '^' <= c <= '`' || c == '|' || c == '~'
  }

  predicate IsTokens(s: string) { forall i :: 0 <= i < |s| ==> IsToken(s[i]) }

  /** textproto.CanonicalMIMEHeaderKey: a name that is no token is left alone. */
  function Canonical(name: string): (r: string)
    ensures |r| == |name|
    ensures forall i :: 0 <= i < |name| ==> r[i] == if IsTokens(name) then CanonicalChar(name, i) else name[i]
  {
    if !IsTokens(name) then name
    else seq(|name|, i requires 0 <= i < |name| => CanonicalChar(name, i))
  }

  /** Upper case at the start and after a hyphen, lower case elsewhere. */
  function CanonicalChar(name: string, i: nat): char
    requires i < |name|
  {
    if i == 0 || name[i - 1] == '-' then UpperChar(name[i]) else LowerChar(name[i])
  }

  predicate IsCanonical(name: string) { Canonical(name) == name }

  predicate CanonicalNames(h: HeaderMap) { forall name :: name in h ==> IsCanonical(name) }

  lemma CaseKeepsToken(c: char)
    requires IsToken(c)
    ensures IsToken(UpperChar(c)) && IsToken(LowerChar(c))
    ensures UpperChar(c) == '-' <==> c == '-'
    ensures LowerChar(c) == '-' <==> c == '-'
  {
  }

  lemma CaseTwice(c: char)
    ensures UpperChar(UpperChar(c)) == UpperChar(c) && LowerChar(LowerChar(c)) == LowerChar(c)
    ensures LowerChar(UpperChar(c)) == LowerChar(c) && UpperChar(LowerChar(c)) == UpperChar(c)
  {
  }

  lemma CanonicalIsTokens(name: string)
    requires IsTokens(name)
    ensures IsTokens(Canonical(name))
    ensures forall i :: 0 <= i < |name| ==> (Canonical(name)[i] == '-' <==> name[i] == '-')
  {
    forall i | 0 <= i < |name|
      ensures IsToken(Canonical(name)[i]) && (Canonical(name)[i] == '-' <==> name[i] == '-')
    {
      CaseKeepsToken(name[i]);
    }
  }

  /** Canonical names are a fixed point, so a header looked up under any spelling is the same header. */
  lemma CanonicalTwice(name: string)
    ensures IsCanonical(Canonical(name))
  {
    if IsTokens(name) {
      CanonicalIsTokens(name);
      var once := Canonical(name);
      forall i | 0 <= i < |name| ensures Canonical(once)[i] == once[i] {
        CaseTwice(name[i]);
      }
    }
  }

  /** Two spellings of a token name are the same header exactly when they differ in case only. */
  lemma CanonicalIgnoresCase(a: string, b: string)
    requires IsTokens(a) && IsTokens(b)
    ensures Canonical(a) == Canonical(b) <==> Lower(a) == Lower(b)
  {
    if Lower(a) == Lower(b) {
      forall i | 0 <= i < |a| ensures LowerChar(a[i]) == LowerChar(b[i]) {
        assert Lower(a)[i] == Lower(b)[i];
      }
      forall i | 0 <= i < |a|
        ensures UpperChar(a[i]) == UpperChar(b[i])
        ensures a[i] == '-' <==> b[i] == '-'
      {
        CaseTwice(a[i]);
        CaseTwice(b[i]);
        CaseKeepsToken(a[i]);
        CaseKeepsToken(b[i]);
      }
    }
    if Canonical(a) == Canonical(b) {
      forall i | 0 <= i < |a| ensures LowerChar(a[i]) == LowerChar(b[i]) {
        assert Canonical(a)[i] == Canonical(b)[i];
        LowerOfCanonical(a, i);
        LowerOfCanonical(b, i);
      }
      assert Lower(a) == Lower(b);
    }
  }

  lemma LowerOfCanonical(name: string, i: nat)
    requires i < |name|
    ensures LowerChar(Canonical(name)[i]) == LowerChar(name[i])
  {
    CaseTwice(name[i]);
  }

  lemma LetterCases(c: char)
    requires IsLetter(c)
    ensures 'A' <= UpperChar(c) <= 'Z' && 'a' <= LowerChar(c) <= 'z'
  {
  }

  /** In a canonical name exactly the letters that come first or after a hyphen are upper-case. */
  lemma CanonicalLetters(name: string, i: nat)
    requires IsTokens(name) && i < |name| && IsLetter(name[i])
    ensures IsLetter(Canonical(name)[i])
    ensures 'A' <= Canonical(name)[i] <= 'Z' <==> i == 0 || name[i - 1] == '-'
  {
    LetterCases(name[i]);
  }

  /** The characters of header names. */
  lemma TokensAre(c: char)
    ensures IsToken(c) <==>
              'a' <= c <= 'z' || 'A' <= c <= 'Z' || '0' <= c <= '9' || c in "!#$%&'*+-.^_`|~"
  {
  }

  /** http.Header.Get: the first value under the canonical name, "" when there is none. */
  function Get(h: HeaderMap, name: string): string {
    var key := Canonical(name);
    if key in h && |h[key]| > 0 then h[key][0] else ""
  }

  /** http.Header.Add */
  function Add(h: HeaderMap, name: string, value: string): HeaderMap {
    var key := Canonical(name);
    h[key := (if key in h then h[key] else []) + [value]]
  }

  /** A header is found under every spelling of its name. */
  lemma GetIgnoresCase(h: HeaderMap, a: string, b: string)
    requires IsTokens(a) && IsTokens(b) && Lower(a) == Lower(b)
    ensures Get(h, a) == Get(h, b)
  {
    CanonicalIgnoresCase(a, b);
  }

  /** What is looked up is the value added first under the name, in whatever spelling. */
  lemma GetAfterAdd(h: HeaderMap, a: string, value: string, b: string)
    requires IsTokens(a) && IsTokens(b)
    ensures Get(map[], b) == ""
    ensures Lower(a) != Lower(b) ==> Get(Add(h, a, value), b) == Get(h, b)
    ensures Lower(a) == Lower(b) ==> Get(Add(map[], a, value), b) == value
    ensures Get(h, b) != "" ==> Get(Add(h, a, value), b) == Get(h, b)
  {
    CanonicalIgnoresCase(a, b);
  }

  /** Adding every value of one name in turn. */
  function AddValues(h: HeaderMap, name: string, values: seq<string>): HeaderMap {
    if values == [] then h
    else Add(AddValues(h, name, values[..|values| - 1]), name, values[|values| - 1])
  }

  /** The header that adding all names of `order`, each with all its values, builds from nothing. */
  function Rebuild(stored: HeaderMap, order: seq<string>): HeaderMap
    requires forall name :: name in order ==> name in stored
  {
    if order == [] then map[]
    else
      var last := order[|order| - 1];
      AddValues(Rebuild(stored, order[..|order| - 1]), last, stored[last])
  }

  /** Every name once: an order in which Go may range over the map. */
  predicate IsRange<V>(m: map<string, V>, order: seq<string>) {
    Distinct(order) && ToSet(order) == m.Keys
  }

  /** No order of ranging is ruled out, and there is one. */
  lemma RangesAreFree<V>(m: map<string, V>, order: seq<string>, i: nat, j: nat)
    requires IsRange(m, order) && i < |order| && j < |order|
    ensures IsRange(m, order[i := order[j]][j := order[i]])
  {
    SwapKeeps(order, i, j);
  }

  /** The inner loop of forwardEvent: every value of one name. */
  method AddEach(header: HeaderMap, name: string, values: seq<string>) returns (r: HeaderMap)
    ensures r == AddValues(header, name, values)
  {
    r := header;
    for j := 0 to |values|
      invariant r == AddValues(header, name, values[..j])
    {
      assert values[..j + 1][..j] == values[..j];
      r := Add(r, name, values[j]);
    }
    assert values[..|values|] == values;
  }

  /** The loop of forwardEvent that fills req.Header; the names come in any order. */
  method FillHeader(stored: HeaderMap, order: seq<string>) returns (header: HeaderMap)
    requires IsRange(stored, order)
    ensures header == Rebuild(stored, order)
  {
    assert forall name :: name in order ==> name in ToSet(order);
    header := map[];
    for i := 0 to |order|
      invariant header == Rebuild(stored, order[..i])
    {
      header := AddEach(header, order[i], stored[order[i]]);
      assert order[..i + 1][..i] == order[..i];
    }
    assert order[..|order|] == order;
  }

  lemma {:induction false} AddValuesAt(h: HeaderMap, name: string, values: seq<string>)
    ensures var r := AddValues(h, name, values);
            var key := Canonical(name);
            && (values == [] ==> r == h)
            && (values != [] ==> r == h[key := (if key in h then h[key] else []) + values])
  {
    if values == [] {
    } else {
      AddValuesAt(h, name, values[..|values| - 1]);
      var key, rest, last := Canonical(name), values[..|values| - 1], values[|values| - 1];
      var had := if key in h then h[key] else [];
      assert rest + [last] == values;
      assert had + (rest + [last]) == had + rest + [last];
      if rest == [] {
        assert AddValues(h, name, values) == h[key := had + [last]];
      } else {
        assert AddValues(h, name, values) == h[key := had + rest][key := had + rest + [last]];
      }
    }
  }

  /** For canonical names the rebuilt header holds exactly the names reached, each with its whole list. */
  lemma {:induction false} RebuildCanonical(stored: HeaderMap, order: seq<string>)
    requires CanonicalNames(stored) && Distinct(order)
    requires forall name :: name in order ==> name in stored
    ensures forall name :: name in Rebuild(stored, order) <==> name in order && stored[name] != []
    ensures forall name :: name in Rebuild(stored, order) ==> Rebuild(stored, order)[name] == stored[name]
  {
    if order == [] {
    } else {
      var rest, last := order[..|order| - 1], order[|order| - 1];
      RebuildCanonical(stored, rest);
      AddValuesAt(Rebuild(stored, rest), last, stored[last]);
      assert order == rest + [last];
      assert IsCanonical(last);
      assert last !in Rebuild(stored, rest);
    }
  }

  /** Every name of a rebuilt header is canonical and carries at least one value. */
  lemma {:induction false} RebuildShape(stored: HeaderMap, order: seq<string>)
    requires forall name :: name in order ==> name in stored
    ensures forall name :: name in Rebuild(stored, order) ==> IsCanonical(name) && Rebuild(stored, order)[name] != []
  {
    if order == [] {
    } else {
      var rest, last := order[..|order| - 1], order[|order| - 1];
      RebuildShape(stored, rest);
      AddValuesAt(Rebuild(stored, rest), last, stored[last]);
      CanonicalTwice(last);
    }
  }

  /**
   The header round trip, whatever order the map is ranged over: the rebuilt header is the
   stored one if and only if every stored name is canonical and has a value.
   */
  lemma HeaderRoundTrip(stored: HeaderMap, order: seq<string>)
    requires IsRange(stored, order)
    ensures Rebuild(stored, order) == stored
       <==> CanonicalNames(stored) && forall name :: name in stored ==> stored[name] != []
  {
    RebuildShape(stored, order);
    if CanonicalNames(stored) && forall name :: name in stored ==> stored[name] != [] {
      RebuildCanonical(stored, order);
      assert forall name :: name in stored ==> name in ToSet(order);
    }
  }

  /** With canonical names every lookup answers the same before and after, even if some lists are empty. */
  lemma RebuildKeepsLookups(stored: HeaderMap, order: seq<string>, name: string)
    requires IsRange(stored, order) && CanonicalNames(stored)
    ensures Get(Rebuild(stored, order), name) == Get(stored, name)
  {
    RebuildCanonical(stored, order);
    var key := Canonical(name);
    assert key in stored ==> key in ToSet(order);
  }
}
