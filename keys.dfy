/**
 Key naming of the Redis retention module.

 A host is stored under `HOST-<host name>`; a service under
 `SERVICE-<host name>,<service description>` in which every space of the
 whole key is then replaced by the token `SPACE`. Service keys therefore carry
 no space character (other whitespace is kept); host keys are written as is,
 spaces included. Both the save and the load hook build their keys
 with these two functions, so they agree by construction.
 */
module RetentionKeys {

  const HostPrefix: string := "HOST-"
  const ServicePrefix: string := "SERVICE-"
  const SpaceToken: string := "SPACE"

  /** A service is identified by the name of its host and its description. */
  datatype ServiceId = ServiceId(hostName: string, description: string)

  /** `s` holds no occurrence of the character `c`. */
  predicate Lacks(s: string, c: char)
  {
    forall i :: 0 <= i < |s| ==> s[i] != c
  }

  /** Replaces every space of `s` by `SpaceToken`, left to right. */
  function ReplaceSpaces(s: string): (r: string)
    ensures Lacks(r, ' ')
    ensures Lacks(s, ' ') ==> r == s
    ensures |r| >= |s|
  {
    if s == [] then []
    else (if s[0] == ' ' then SpaceToken else [s[0]]) + ReplaceSpaces(s[1..])
  }

  /** The store key of a host: the prefix `HOST-` followed by the host name, unchanged. */
  function HostKey(hostName: string): (k: string)
    ensures |k| == |HostPrefix| + |hostName|
    ensures k[..|HostPrefix|] == HostPrefix
    ensures k[|HostPrefix|..] == hostName
  {
    HostPrefix + hostName
  }

  /** The store key of a service: the formatted key with its spaces replaced. */
  function ServiceKey(id: ServiceId): (k: string)
    ensures Lacks(k, ' ')
  {
    ReplaceSpaces(ServicePrefix + id.hostName + "," + id.description)
  }

  // ---------------------------------------------------------------------------
  // Shape of the keys

  lemma {:induction false} ReplaceSpacesAppend(a: string, b: string)
    ensures ReplaceSpaces(a + b) == ReplaceSpaces(a) + ReplaceSpaces(b)
  {
    if a == [] {
      assert a + b == b;
    } else {
      assert (a + b)[0] == a[0];
      assert (a + b)[1..] == a[1..] + b;
      ReplaceSpacesAppend(a[1..], b);
    }
  }

  /** Text without spaces passes through the replacement unchanged when it comes first. */
  lemma ReplaceSpacesKeepsPrefix(a: string, b: string)
    requires Lacks(a, ' ')
    ensures ReplaceSpaces(a + b) == a + ReplaceSpaces(b)
  {
    ReplaceSpacesAppend(a, b);
  }

  /** No space is replaced in a host key: it holds a space exactly when the host name does. */
  lemma HostKeyKeepsSpaces(hostName: string)
    ensures Lacks(HostKey(hostName), ' ') <==> Lacks(hostName, ' ')
  {
    var k := HostKey(hostName);
    if Lacks(hostName, ' ') {
      forall i | 0 <= i < |k|
        ensures k[i] != ' '
      {
        if i < |HostPrefix| {
          assert k[i] == HostPrefix[i];
        } else {
          assert k[i] == hostName[i - |HostPrefix|];
        }
      }
    } else {
      var j :| 0 <= j < |hostName| && hostName[j] == ' ';
      assert k[|HostPrefix| + j] == ' ';
    }
  }

  /** Two hosts share a key only when they have the same name. */
  lemma HostKeyInjective(a: string, b: string)
    requires HostKey(a) == HostKey(b)
    ensures a == b
  {
    assert a == HostKey(a)[|HostPrefix|..];
  }

  lemma FormattedKeyShape(h: string, d: string)
    ensures ReplaceSpaces(ServicePrefix + h + "," + d) == ServicePrefix + ReplaceSpaces(h) + "," + ReplaceSpaces(d)
  {
    var tail := h + ("," + d);
    assert ServicePrefix + h + "," + d == ServicePrefix + tail;
    assert Lacks(ServicePrefix, ' ') && Lacks(",", ' ');
    ReplaceSpacesKeepsPrefix(ServicePrefix, tail);
    ReplaceSpacesAppend(h, "," + d);
    ReplaceSpacesKeepsPrefix(",", d);
    assert ServicePrefix + (ReplaceSpaces(h) + ("," + ReplaceSpaces(d))) == ServicePrefix + ReplaceSpaces(h) + "," + ReplaceSpaces(d);
  }

  /**
   A service key is `SERVICE-` (which the replacement leaves intact) followed
   by the space-replaced host name, a comma and the space-replaced description.
   */
  lemma ServiceKeyShape(id: ServiceId)
    ensures ServiceKey(id) == ServicePrefix + ReplaceSpaces(id.hostName) + "," + ReplaceSpaces(id.description)
  {
    FormattedKeyShape(id.hostName, id.description);
  }

  /** Host keys and service keys never coincide: they differ in their first character. */
  lemma KeySpacesDisjoint(hostName: string, id: ServiceId)
    ensures HostKey(hostName) != ServiceKey(id)
  {
    ServiceKeyShape(id);
    assert HostKey(hostName)[0] == 'H';
    assert ServiceKey(id)[0] == 'S';
  }

  /**
   A service whose description holds one space, such as host `web01` with
   `CPU load`, is stored under `SERVICE-web01,CPUSPACEload`.
   */
  lemma ServiceKeyOneSpace(host: string, first: string, second: string)
    requires Lacks(host, ' ') && Lacks(first, ' ') && Lacks(second, ' ')
    ensures ServiceKey(ServiceId(host, first + " " + second)) == ServicePrefix + host + "," + first + SpaceToken + second
  {
    assert ReplaceSpaces(first + " " + second) == first + SpaceToken + second by {
      assert first + " " + second == first + ([' '] + second);
      ReplaceSpacesKeepsPrefix(first, [' '] + second);
      assert ReplaceSpaces([' '] + second) == SpaceToken + ReplaceSpaces(second);
    }
    FormattedKeyShape(host, first + " " + second);
  }

  // ---------------------------------------------------------------------------
  // Collisions: the service key is not injective in general

  /** A space and the token `SPACE` are replaced alike. */
  lemma SpaceAndTokenReplaceAlike(rest: string)
    ensures ReplaceSpaces([' '] + rest) == ReplaceSpaces(SpaceToken + rest)
  {
    assert ([' '] + rest)[1..] == rest;
    ReplaceSpacesKeepsPrefix(SpaceToken, rest);
  }

  /**
   A description holding a space and the description holding the token `SPACE`
   in its place are different services with the same key.
   */
  lemma SpaceTokenCollision(host: string, before: string, after: string)
    ensures ServiceId(host, before + " " + after) != ServiceId(host, before + SpaceToken + after)
    ensures ServiceKey(ServiceId(host, before + " " + after)) == ServiceKey(ServiceId(host, before + SpaceToken + after))
  {
    var spaced, spelled := before + " " + after, before + SpaceToken + after;
    assert |spaced| != |spelled|;
    assert ReplaceSpaces(spaced) == ReplaceSpaces(spelled) by {
      assert spaced == before + ([' '] + after);
      assert spelled == before + (SpaceToken + after);
      ReplaceSpacesAppend(before, [' '] + after);
      ReplaceSpacesAppend(before, SpaceToken + after);
      SpaceAndTokenReplaceAlike(after);
    }
    FormattedKeyShape(host, spaced);
    FormattedKeyShape(host, spelled);
  }

  /** A comma inside a host name makes the split between host and description ambiguous. */
  lemma CommaCollision()
    ensures ServiceId("a,b", "c") != ServiceId("a", "b,c")
    ensures ServiceKey(ServiceId("a,b", "c")) == ServiceKey(ServiceId("a", "b,c"))
  {
    assert ServicePrefix + "a,b" + "," + "c" == ServicePrefix + "a" + "," + "b,c";
  }

  // ---------------------------------------------------------------------------
  // Injectivity under the documented naming constraints

  /** `s` holds the token `SPACE` starting at position `i`. */
  predicate TokenAt(s: string, i: int)
  {
    0 <= i && i + |SpaceToken| <= |s| && s[i..i + |SpaceToken|] == SpaceToken
  }

  /** `s` never holds the token `SPACE` verbatim. */
  predicate TokenFree(s: string)
  {
    forall i :: 0 <= i < |s| ==> !TokenAt(s, i)
  }

  /**
   A service identity that respects the naming constraints under which its key
   is unambiguous: no comma in the host name and no verbatim `SPACE` token.
   */
  predicate WellFormedService(id: ServiceId)
  {
    Lacks(id.hostName, ',') && TokenFree(id.hostName) && TokenFree(id.description)
  }

  lemma TokenFreeTail(s: string)
    requires s != [] && TokenFree(s)
    ensures TokenFree(s[1..])
  {
    forall i | TokenAt(s[1..], i)
      ensures false
    {
      assert s[1..][i..i + |SpaceToken|] == s[i + 1..i + 1 + |SpaceToken|];
      assert TokenAt(s, i + 1);
    }
  }

  lemma ReplaceSpacesHead(s: string)
    requires s != [] && s[0] != ' '
    ensures ReplaceSpaces(s) == [s[0]] + ReplaceSpaces(s[1..])
  {
  }

  /**
   When the replaced text starts with a prefix `p` that holds no `S` (the
   first letter of the token), the original text starts with `p` as well.
   */
  lemma {:induction false} ReplacedPrefixWithoutS(s: string, p: string)
    requires Lacks(p, 'S')
    requires |p| <= |ReplaceSpaces(s)| && ReplaceSpaces(s)[..|p|] == p
    ensures |p| <= |s| && s[..|p|] == p
  {
    if p != [] {
      assert s != [];
      assert ReplaceSpaces(s)[0] == p[0];
      if s[0] == ' ' {
        assert false;
      }
      ReplaceSpacesHead(s);
      assert ReplaceSpaces(s[1..])[..|p| - 1] == ReplaceSpaces(s)[1..|p|];
      assert p[1..] == ReplaceSpaces(s)[1..|p|];
      ReplacedPrefixWithoutS(s[1..], p[1..]);
      assert s[..|p|] == [s[0]] + s[1..][..|p| - 1];
    }
  }

  lemma TokenAtHead(s: string)
    requires s != [] && s[0] == SpaceToken[0]
    requires |SpaceToken| - 1 <= |s[1..]| && s[1..][..|SpaceToken| - 1] == SpaceToken[1..]
    ensures TokenAt(s, 0)
  {
    assert s[..|SpaceToken|] == [s[0]] + s[1..][..|SpaceToken| - 1];
  }

  /** A space and a non-space first character never produce the same replaced text. */
  lemma SpaceAgainstOther(a: string, b: string)
    requires a != [] && a[0] == ' '
    requires b != [] && b[0] != ' '
    requires TokenFree(b)
    ensures ReplaceSpaces(a) != ReplaceSpaces(b)
  {
    if ReplaceSpaces(a) == ReplaceSpaces(b) {
      var r, rest := ReplaceSpaces(a), SpaceToken[1..];
      assert r == SpaceToken + ReplaceSpaces(a[1..]);
      ReplaceSpacesHead(b);
      assert b[0] == r[0] == SpaceToken[0];
      assert ReplaceSpaces(b[1..]) == r[1..];
      assert r[1..][..|rest|] == rest;
      assert Lacks(rest, 'S');
      ReplacedPrefixWithoutS(b[1..], rest);
      TokenAtHead(b);
      assert false;
    }
  }

  /** On text that never holds the token verbatim, the replacement is injective. */
  lemma {:induction false} ReplaceSpacesInjective(a: string, b: string)
    requires TokenFree(a) && TokenFree(b)
    requires ReplaceSpaces(a) == ReplaceSpaces(b)
    ensures a == b
  {
    if a == [] || b == [] {
    } else if a[0] == ' ' && b[0] == ' ' {
      assert SpaceToken + ReplaceSpaces(a[1..]) == SpaceToken + ReplaceSpaces(b[1..]);
      assert ReplaceSpaces(a[1..]) == (SpaceToken + ReplaceSpaces(a[1..]))[|SpaceToken|..];
      assert ReplaceSpaces(b[1..]) == (SpaceToken + ReplaceSpaces(b[1..]))[|SpaceToken|..];
      TokenFreeTail(a);
      TokenFreeTail(b);
      ReplaceSpacesInjective(a[1..], b[1..]);
      assert a == [a[0]] + a[1..] && b == [b[0]] + b[1..];
    } else if a[0] == ' ' {
      SpaceAgainstOther(a, b);
    } else if b[0] == ' ' {
      SpaceAgainstOther(b, a);
    } else {
      ReplaceSpacesHead(a);
      ReplaceSpacesHead(b);
      assert a[0] == ReplaceSpaces(a)[0] == b[0];
      assert ReplaceSpaces(a[1..]) == ReplaceSpaces(a)[1..] == ReplaceSpaces(b)[1..] == ReplaceSpaces(b[1..]);
      TokenFreeTail(a);
      TokenFreeTail(b);
      ReplaceSpacesInjective(a[1..], b[1..]);
      assert a == [a[0]] + a[1..] && b == [b[0]] + b[1..];
    }
  }

  /** The replacement introduces no comma. */
  lemma {:induction false} ReplaceSpacesNoComma(s: string)
    requires Lacks(s, ',')
    ensures Lacks(ReplaceSpaces(s), ',')
  {
    if s != [] {
      ReplaceSpacesNoComma(s[1..]);
    }
  }

  lemma CommaAfter(a: string, b: string)
    ensures (a + "," + b)[|a|] == ','
    ensures forall i :: 0 <= i < |a| ==> (a + "," + b)[i] == a[i]
  {
  }

  /** Splitting at the first comma recovers both parts when the first holds no comma. */
  lemma SplitAtComma(a: string, b: string, c: string, d: string)
    requires Lacks(a, ',') && Lacks(c, ',')
    requires a + "," + b == c + "," + d
    ensures a == c && b == d
  {
    var x := a + "," + b;
    CommaAfter(a, b);
    CommaAfter(c, d);
    if |a| < |c| {
      assert false;
    } else if |c| < |a| {
      assert false;
    }
    assert a == x[..|a|] == c;
    assert b == x[|a| + 1..] == d;
  }

  /** The replaced host name and description, joined by a comma, determine both parts. */
  lemma ReplacedPartsInjective(h1: string, d1: string, h2: string, d2: string)
    requires Lacks(h1, ',') && Lacks(h2, ',')
    requires TokenFree(h1) && TokenFree(d1) && TokenFree(h2) && TokenFree(d2)
    requires ReplaceSpaces(h1) + "," + ReplaceSpaces(d1) == ReplaceSpaces(h2) + "," + ReplaceSpaces(d2)
    ensures h1 == h2 && d1 == d2
  {
    ReplaceSpacesNoComma(h1);
    ReplaceSpacesNoComma(h2);
    SplitAtComma(ReplaceSpaces(h1), ReplaceSpaces(d1), ReplaceSpaces(h2), ReplaceSpaces(d2));
    ReplaceSpacesInjective(h1, h2);
    ReplaceSpacesInjective(d1, d2);
  }

  lemma PrefixCancel(p: string, x: string, y: string)
    requires p + x == p + y
    ensures x == y
  {
    assert x == (p + x)[|p|..];
  }

  /** Under the naming constraints, two services share a key only when they are the same service. */
  lemma ServiceKeyInjective(id1: ServiceId, id2: ServiceId)
    requires WellFormedService(id1) && WellFormedService(id2)
    requires ServiceKey(id1) == ServiceKey(id2)
    ensures id1 == id2
  {
    var r1 := ReplaceSpaces(id1.hostName) + "," + ReplaceSpaces(id1.description);
    var r2 := ReplaceSpaces(id2.hostName) + "," + ReplaceSpaces(id2.description);
    assert ServiceKey(id1) == ServicePrefix + r1 by { ServiceKeyShape(id1); }
    assert ServiceKey(id2) == ServicePrefix + r2 by { ServiceKeyShape(id2); }
    PrefixCancel(ServicePrefix, r1, r2);
    ReplacedPartsInjective(id1.hostName, id1.description, id2.hostName, id2.description);
  }
}
