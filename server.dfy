/** The two configuration rules of backend/server.js that carry logic: the list of allowed
    CORS origins and the listening port. */
module Server {
  import opened Wrappers
  import opened JsSemantics

  const DefaultOrigin := "http://localhost:5173"
  const DefaultPort := 5000

  /** `.map(s => s.trim()).filter(Boolean)`: every part trimmed, the empty ones dropped. */
  function CleanOrigins(parts: seq<string>): (r: seq<string>)
    ensures |r| <= |parts|
    ensures forall o :: o in r ==> o != "" && IsTrimmed(o)
  {
    if parts == [] then [] else CleanPart(parts[0]) + CleanOrigins(parts[1..])
  }

  /** One part, trimmed, or nothing when it is blank. */
  function CleanPart(p: string): seq<string> {
    if Trim(p) == "" then [] else [Trim(p)]
  }

  /** Trimming adds no character: a character that no part holds is in no origin. */
  lemma {:induction false} CleanOriginsAvoid(parts: seq<string>, c: char)
    requires forall p :: p in parts ==> c !in p
    ensures forall o :: o in CleanOrigins(parts) ==> c !in o
  {
    if parts != [] {
      assert parts[0] in parts;
      TrimKeepsChars(parts[0]);
      forall p | p in parts[1..] ensures c !in p {
        assert p in parts;
      }
      CleanOriginsAvoid(parts[1..], c);
    }
  }

  /** The list keeps the order of the parts: cleaning a concatenation cleans each half. */
  lemma {:induction false} CleanOriginsAppend(a: seq<string>, b: seq<string>)
    ensures CleanOrigins(a + b) == CleanOrigins(a) + CleanOrigins(b)
  {
    if a == [] {
      assert a + b == b;
    } else {
      assert (a + b)[0] == a[0];
      assert (a + b)[1..] == a[1..] + b;
      CleanOriginsAppend(a[1..], b);
      var head := CleanPart(a[0]);
      assert head + (CleanOrigins(a[1..]) + CleanOrigins(b)) == (head + CleanOrigins(a[1..])) + CleanOrigins(b);
    }
  }

  /** Already clean origins pass unchanged. */
  lemma {:induction false} CleanOriginsKeepsClean(os: seq<string>)
    requires forall o :: o in os ==> o != "" && IsTrimmed(o)
    ensures CleanOrigins(os) == os
  {
    if os != [] {
      assert os[0] in os;
      TrimmedIsFixpoint(os[0]);
      forall o | o in os[1..] ensures o != "" && IsTrimmed(o) {
        assert o in os;
      }
      CleanOriginsKeepsClean(os[1..]);
      assert os == [os[0]] + os[1..];
    }
  }

  /** `CLIENT_ORIGIN?.split(",").map(...).filter(Boolean) || [default]`. An array is truthy
      even when empty, so the default is taken only when the variable is unset. */
  function AllowedOrigins(clientOrigin: Option<string>): (r: seq<string>)
    ensures clientOrigin.None? ==> r == [DefaultOrigin]
    ensures clientOrigin.Some? ==> forall o :: o in r ==> o != "" && IsTrimmed(o) && ',' !in o
  {
    match clientOrigin
    case None => [DefaultOrigin]
    case Some(s) =>
      var parts := Split(s, ',');
      var r := CleanOrigins(parts);
      CleanOriginsAvoid(parts, ',');
      r
  }

  /** A value made of clean origins joined by commas is read back as exactly those origins,
      in order. */
  lemma OriginsRoundTrip(os: seq<string>)
    requires forall o :: o in os ==> o != "" && IsTrimmed(o) && ',' !in o
    ensures AllowedOrigins(Some(Join(os, ","))) == os
  {
    if os == [] {
      assert Split("", ',') == [""];
      assert Trim("") == "";
    } else {
      SplitJoin(os, ',');
      CleanOriginsKeepsClean(os);
    }
  }

  /** A value with no origin in it, such as "" or ", ,", gives the empty list and not the
      default: every request from a browser origin is then refused. */
  lemma {:induction false} BlankValueAllowsNothing(s: string)
    requires forall k :: 0 <= k < |s| ==> s[k] == ',' || IsSpace(s[k])
    ensures AllowedOrigins(Some(s)) == []
  {
    var parts := Split(s, ',');
    forall p | p in parts ensures Trim(p) == "" {
      forall k | 0 <= k < |p| ensures IsSpace(p[k]) {
        assert p[k] in p;
        assert p[k] in s;
      }
      TrimBlankIff(p);
    }
    AllBlankCleansToNothing(parts);
  }

  lemma {:induction false} AllBlankCleansToNothing(parts: seq<string>)
    requires forall p :: p in parts ==> Trim(p) == ""
    ensures CleanOrigins(parts) == []
  {
    if parts != [] {
      assert parts[0] in parts;
      forall p | p in parts[1..] ensures Trim(p) == "" {
        assert p in parts;
      }
      AllBlankCleansToNothing(parts[1..]);
    }
  }

  /** `process.env.PORT || 5000`: the variable's text when it is set and non-empty, the
      number 5000 otherwise. */
  function Port(port: Option<string>): (p: JsValue)
    ensures port.Some? && port.value != "" ==> p == Str(port.value)
    ensures port.None? || port == Some("") ==> p == Num(DefaultPort)
  {
    Or(if port.Some? then Str(port.value) else Undefined, Num(DefaultPort))
  }
}
