/** `get_encoded_user_passwd` of src/ddns.c: the Basic credential of one provider. */
module Credentials {
  import opened Base64
  import opened Strings

  const USERNAME_LEN: nat := 128
  const PASSWORD_LEN: nat := 256
  const COLON: Octet := 58

  const RC_OUT_OF_MEMORY: int := 3
  const RC_BUFFER_OVERFLOW: int := 4

  /** `ddns_creds_t`: strings that fit their arrays with the NUL. */
  class Creds {
    const username: seq<Octet>
    const password: seq<Octet>
    var encodedPassword: array?<Octet>
    var encoded: bool
    var size: nat

    constructor (username: seq<Octet>, password: seq<Octet>)
      ensures this.username == username && this.password == password && !encoded
    {
      this.username, this.password := username, password;
      encodedPassword, encoded, size := null, false, 0;
    }

    predicate InRange() {
      NulFree(username) && NulFree(password) && |username| < USERNAME_LEN && |password| < PASSWORD_LEN
    }

    /** `username:password`. */
    function Plain(): seq<Octet> { username + [COLON] + password }

    /** The credential is there, and is the encoding of all of it. */
    ghost predicate Ready()
      reads this, encodedPassword
    {
      && encoded && encodedPassword != null
      && Text(encodedPassword[..]) == Encoded(Plain()) && size == |Encoded(Plain())|
    }
  }

  /** The length of the scratch buffer. */
  function BufferLength(): nat {
    var len := PASSWORD_LEN + USERNAME_LEN + 2;
    (len / 3 + (if len % 3 != 0 then 1 else 0)) * 4
  }

  /** A string and its NUL at the front of a buffer. */
  predicate Holds(buf: seq<Octet>, s: seq<Octet>) {
    |s| < |buf| && buf[..|s|] == s && buf[|s|] == 0
  }

  lemma HoldsLength(buf: seq<Octet>, s: seq<Octet>)
    requires Holds(buf, s) && NulFree(s)
    ensures Length(buf) == |s| && Text(buf) == s
  {
    forall i | 0 <= i < |s| ensures buf[i] != 0 {
      assert buf[i] == s[i] && s[i] in s;
    }
    LengthIs(buf, |s|);
  }

  /** One `strlcat` with room enough. */
  lemma Appended(was: seq<Octet>, now: seq<Octet>, s: seq<Octet>, t: seq<Octet>, size: nat)
    requires Holds(was, s) && size == |was| == |now| && |s| + |t| < size && Wrote(now, was, |s|, t, size)
    ensures Holds(now, s + t)
  {
  }

  /** The three copies into the scratch buffer: nothing is cut off. */
  method Compose(creds: Creds, buf: array<Octet>)
    requires creds.InRange() && buf.Length == BufferLength()
    modifies buf
    ensures Holds(buf[..], creds.Plain())
  {
    var len := buf.Length;
    var n := Strlcpy(buf, creds.username, len);
    assert Holds(buf[..], creds.username);
    ghost var one := buf[..];
    HoldsLength(one, creds.username);
    assert buf[..len] == one;
    n := Strlcat(buf, [COLON], len);
    ghost var two := buf[..];
    Appended(one, two, creds.username, [COLON], len);
    HoldsLength(two, creds.username + [COLON]);
    assert buf[..len] == two;
    n := Strlcat(buf, creds.password, len);
    Appended(two, buf[..], creds.username + [COLON], creds.password, len);
  }

  lemma PlainIsNulFree(creds: Creds)
    requires creds.InRange()
    ensures NulFree(creds.Plain())
  {
  }

  lemma {:induction false} EncodedIsNulFree(src: seq<Octet>)
    ensures NulFree(Encoded(src))
  {
    EncodedIsWellFormed(src);
    var e := Encoded(src);
    var k :| 0 <= k <= |e| && SplitAt(e, k);
    forall i | 0 <= i < |e| ensures e[i] != 0 {
      if i < k { assert InAlphabet(e[i]); }
    }
  }

  /** The loop body for one provider; `memory` says whether `malloc` succeeds. */
  method EncodeOne(creds: Creds, buf: array<Octet>, memory: bool) returns (rc: int)
    requires creds.InRange() && buf.Length == BufferLength()
    modifies creds, buf
    ensures rc == if memory then 0 else RC_OUT_OF_MEMORY
    ensures rc != 0 ==> !creds.encoded
    ensures rc == 0 ==> creds.Ready() && fresh(creds.encodedPassword)
  {
    hide Encoded;
    creds.encoded := false;
    Compose(creds, buf);
    PlainIsNulFree(creds);
    HoldsLength(buf[..], creds.Plain());
    var n := StringLength(buf);
    var text := buf[..n];
    var rc2, dlen := Encode(null, 0, text);
    if !memory {
      return RC_OUT_OF_MEMORY;
    }
    var encode := new Octet[dlen];
    rc2, dlen := Encode(encode, dlen, text);
    if rc2 != 0 {
      return RC_BUFFER_OVERFLOW;
    }
    EncodedIsNulFree(text);
    HoldsLength(encode[..], Encoded(text));
    creds.encodedPassword := encode;
    creds.encoded := true;
    creds.size := StringLength(encode);
    return 0;
  }

  /** `get_encoded_user_passwd`, over all providers: it stops at the first credential there is
      no memory for. `scratch` and `memory` say which allocations succeed. */
  method EncodeAll(all: seq<Creds>, scratch: bool, memory: nat -> bool) returns (rc: int)
    requires forall i :: 0 <= i < |all| ==> all[i].InRange()
    requires forall i, j :: 0 <= i < j < |all| ==> all[i] != all[j]
    modifies all
    ensures rc == if scratch && AllGranted(memory, |all|) then 0 else RC_OUT_OF_MEMORY
    ensures rc == 0 ==> forall i :: 0 <= i < |all| ==> all[i].Ready()
    ensures rc != 0 && scratch ==>
      exists k :: 0 <= k < |all| && AllGranted(memory, k) && !memory(k) && ReadyBefore(all, k)
  {
    hide Encoded, Length;
    if !scratch { return RC_OUT_OF_MEMORY; }
    var buf := new Octet[BufferLength()](_ => 0);
    var i := 0;
    while i < |all|
      invariant 0 <= i <= |all| && AllGranted(memory, i)
      invariant forall k :: 0 <= k < i ==> all[k].Ready() && all[k].encodedPassword != buf && fresh(all[k].encodedPassword)
    {
      rc := EncodeOne(all[i], buf, memory(i));
      if rc != 0 {
        return;
      }
      i := i + 1;
    }
    rc := 0;
  }

  /** The first `k` providers have their credentials and the next one has none. */
  ghost predicate ReadyBefore(all: seq<Creds>, k: nat)
    requires k < |all|
    reads all, set i | 0 <= i < k :: all[i].encodedPassword
  {
    !all[k].encoded && forall i :: 0 <= i < k ==> all[i].Ready()
  }

  predicate AllGranted(memory: nat -> bool, n: nat) {
    forall k: nat :: k < n ==> memory(k)
  }

  /** `strlen`. */
  method StringLength(a: array<Octet>) returns (n: nat)
    requires Length(a[..]) < a.Length
    ensures n == Length(a[..])
  {
    n := 0;
    while a[n] != 0
      invariant n <= Length(a[..])
      decreases a.Length - n
    {
      n := n + 1;
    }
  }

  /** What the server reads: the credential decodes, in one call with the size demanded, to the
      user name, a colon and the password, uncut. */
  lemma CredentialDecodes(creds: Creds)
    requires creds.InRange()
    ensures var e := Encoded(creds.Plain());
      && WellFormed(Strip(e, 0)) && Strip(e, 0) == e && Ascii(e)
      && Decoded(e) == creds.username + [COLON] + creds.password
      && |Decoded(e)| == |creds.username| + 1 + |creds.password| <= DecodedSize(|e|)
  {
    DecodingUndoesEncoding(creds.Plain());
  }

  /** The example of section 2 of RFC 7617. */
  lemma AladdinsCredential(creds: Creds)
    requires creds.username == Codes("Aladdin") && creds.password == Codes("open sesame")
    ensures Encoded(creds.Plain()) == Codes("QWxhZGRpbjpvcGVuIHNlc2FtZQ==")
  {
    AladdinIs(creds);
    CredentialIs();
    hide Encoded, Codes;
    AladdinColon([112, 101, 110, 32, 115, 101, 115, 97, 109, 101]);
    PenSesame();
  }

  lemma AladdinIs(creds: Creds)
    requires creds.username == Codes("Aladdin") && creds.password == Codes("open sesame")
    ensures creds.Plain() == [65, 108, 97, 100, 100, 105, 110, 58, 111] + [112, 101, 110, 32, 115, 101, 115, 97, 109, 101]
  {
  }

  lemma CredentialIs()
    ensures Codes("QWxhZGRpbjpvcGVuIHNlc2FtZQ==") ==
      [81, 87, 120, 104, 90, 71, 82, 112, 98, 106, 112, 118] +
      [99, 71, 86, 117, 73, 72, 78, 108, 99, 50, 70, 116, 90, 81, 61, 61]
  {
  }

  lemma BehindThree(a: Octet, b: Octet, c: Octet, group: seq<Octet>, rest: seq<Octet>)
    requires Group3(a, b, c) == group
    ensures Encoded([a, b, c] + rest) == group + Encoded(rest)
  {
    assert ([a, b, c] + rest)[3..] == rest;
  }

  lemma AladdinColon(rest: seq<Octet>)
    ensures Encoded([65, 108, 97, 100, 100, 105, 110, 58, 111] + rest) ==
      [81, 87, 120, 104, 90, 71, 82, 112, 98, 106, 112, 118] + Encoded(rest)
  {
    hide Encoded;
    var two := [110, 58, 111] + rest;
    var one := [100, 100, 105] + two;
    BehindThree(110, 58, 111, [98, 106, 112, 118], rest);
    BehindThree(100, 100, 105, [90, 71, 82, 112], two);
    BehindThree(65, 108, 97, [81, 87, 120, 104], one);
    assert [65, 108, 97, 100, 100, 105, 110, 58, 111] + rest == [65, 108, 97] + one;
  }

  lemma PenSesame()
    ensures Encoded([112, 101, 110, 32, 115, 101, 115, 97, 109, 101]) ==
      [99, 71, 86, 117, 73, 72, 78, 108, 99, 50, 70, 116, 90, 81, 61, 61]
  {
    LastOne();
    hide Encoded;
    var two := [115, 97, 109] + [101];
    var one := [32, 115, 101] + two;
    BehindThree(115, 97, 109, [99, 50, 70, 116], [101]);
    BehindThree(32, 115, 101, [73, 72, 78, 108], two);
    BehindThree(112, 101, 110, [99, 71, 86, 117], one);
    assert [112, 101, 110, 32, 115, 101, 115, 97, 109, 101] == [112, 101, 110] + one;
  }

  lemma LastOne()
    ensures Encoded([101]) == [90, 81, 61, 61]
  {
  }
}
