/** How src/ddns.c finds an address in the reply of a check-IP server. */
module AddressScan {

  // `parse_ipv6_address` and `parse_ipv4_address` are the same code over different character
  // sets, so they are one method here.

  import opened CStrings
  import opened Wrappers

  datatype Family = V4 | V6

  /** `inet_pton` followed by `inet_ntop`, and `is_address_valid`. */
  datatype Library = Library(canonical: (Family, string) -> Option<string>, valid: (Family, string) -> bool)

  predicate Accepted(f: Family, c: char) {
    '0' <= c <= '9' || (if f == V4 then c == '.' else 'a' <= c <= 'f' || 'A' <= c <= 'F' || c == ':')
  }

  /** The two character sets. */
  lemma AcceptedIff(c: char)
    ensures Accepted(V4, c) <==> c in "0123456789."
    ensures Accepted(V6, c) <==> c in "0123456789abcdefABCDEF:"
  {
    var four, six := "0123456789.", "0123456789abcdefABCDEF:";
    assert '0' <= c <= '9' ==> four[c as int - 48] == six[c as int - 48] == c;
    assert 'a' <= c <= 'f' ==> six[c as int - 87] == c;
    assert 'A' <= c <= 'F' ==> six[c as int - 49] == c;
    assert four[10] == '.' && six[22] == ':';
  }

  predicate Approved(lib: Library, f: Family, run: string) {
    lib.canonical(f, run).Some? && lib.valid(f, lib.canonical(f, run).value)
  }

  // ------------------------------------------------------------ C strings

  /** `strpbrk`: the first accepted character from `h` on, or the end of the string. */
  function NextAccepted(b: string, f: Family, h: nat): (i: nat)
    requires h <= |b|
    ensures h <= i <= |b|
    ensures forall k :: h <= k < i ==> !Accepted(f, b[k]) && b[k] != '\0'
    ensures i < |b| ==> Accepted(f, b[i]) || b[i] == '\0'
    decreases |b| - h
  {
    if h == |b| || b[h] == '\0' || Accepted(f, b[h]) then h else NextAccepted(b, f, h + 1)
  }

  /** `strspn`: the end of the run of accepted characters at `i`. */
  function RunEnd(b: string, f: Family, i: nat): (j: nat)
    requires i <= |b|
    ensures i <= j <= |b|
    ensures forall k :: i <= k < j ==> Accepted(f, b[k])
    ensures j < |b| ==> !Accepted(f, b[j])
    decreases |b| - i
  {
    if i == |b| || !Accepted(f, b[i]) then i else RunEnd(b, f, i + 1)
  }

  /** The string that starts at `i` and ends before the next NUL. */
  function CString(b: string, i: nat): string
    requires i <= |b|
    decreases |b| - i
  {
    if i == |b| || b[i] == '\0' then "" else b[i..i + 1] + CString(b, i + 1)
  }

  lemma {:induction false} CStringIs(b: string, i: nat, j: nat)
    requires i <= j < |b| && b[j] == '\0'
    requires forall k :: i <= k < j ==> b[k] != '\0'
    ensures CString(b, i) == b[i..j]
    decreases j - i
  {
    if i < j {
      CStringIs(b, i + 1, j);
      assert b[i..i + 1] + b[i + 1..j] == b[i..j];
    }
  }

  lemma AcceptsNoNul(f: Family)
    ensures !Accepted(f, '\0')
  {
  }

  /** Searching the buffer is searching the text it holds. */
  lemma {:induction false} SearchesText(b: string, text: string, f: Family, h: nat)
    requires Holds(b, text) && h <= |text|
    ensures NextAccepted(b, f, h) == NextAccepted(text, f, h)
    ensures RunEnd(b, f, h) == RunEnd(text, f, h)
    decreases |text| - h
  {
    hide Accepted, NulFree;
    InsideNotNul(b, text, h);
    AcceptsNoNul(f);
    if h < |text| {
      assert b[h] == b[..|text|][h];
      SearchesText(b, text, f, h + 1);
    }
  }

  // ------------------------------------------------------------ the search

  datatype Hit = Hit(start: nat, end: nat)

  /** The loop: from `h` on, run by run; it does not start on the last character. */
  function Scan(text: string, f: Family, lib: Library, h: nat): (r: Option<Hit>)
    ensures r.Some? ==> h <= r.value.start < r.value.end <= |text|
    decreases |text| - h
  {
    if h + 1 >= |text| then None
    else
      var i := NextAccepted(text, f, h);
      if i == |text| || text[i] == '\0' then None
      else
        var j := RunEnd(text, f, i);
        if Approved(lib, f, text[i..j]) then Some(Hit(i, j)) else Scan(text, f, lib, j + 1)
  }

  lemma ScanUnfolds(text: string, f: Family, lib: Library, h: nat)
    requires NulFree(text)
    ensures h + 1 >= |text| ==> Scan(text, f, lib, h).None?
    ensures h + 1 < |text| ==>
      var i := NextAccepted(text, f, h); var j := RunEnd(text, f, i);
      Scan(text, f, lib, h) ==
        if i == |text| then None
        else if Approved(lib, f, text[i..j]) then Some(Hit(i, j)) else Scan(text, f, lib, j + 1)
  {
    hide Approved, RunEnd, Accepted, NulFree;
    if h + 1 < |text| && NextAccepted(text, f, h) < |text| {
      NotNul(text, NextAccepted(text, f, h));
    }
  }

  /** A maximal run of accepted characters. */
  predicate IsRun(text: string, f: Family, i: nat, j: nat) {
    && i < j <= |text|
    && (forall k :: i <= k < j ==> Accepted(f, text[k]))
    && (i > 0 ==> !Accepted(f, text[i - 1]))
    && (j < |text| ==> !Accepted(f, text[j]))
  }

  /** No address is one character long. */
  ghost predicate RejectsSingles(lib: Library, f: Family) {
    forall s: string | |s| == 1 :: !Approved(lib, f, s)
  }

  ghost predicate ApprovedRun(text: string, f: Family, lib: Library, i: nat, j: nat) {
    IsRun(text, f, i, j) && Approved(lib, f, text[i..j])
  }

  /** Runs that start at `h` or later start behind the first one or are the first one. */
  lemma RunsFrom(text: string, f: Family, h: nat, a: nat, b: nat)
    requires h <= a && IsRun(text, f, a, b) && NulFree(text)
    ensures var i := NextAccepted(text, f, h); var j := RunEnd(text, f, i);
      i < |text| && ((a == i && b == j) || a > j)
  {
    var i := NextAccepted(text, f, h);
    assert Accepted(f, text[a]);
    assert i <= a;
    RunEndIs(text, f, a, b);
    var j := RunEnd(text, f, i);
    if i < a <= j {
      NotInside(text, f, i, a);
    }
  }

  lemma {:induction false} RunEndIs(text: string, f: Family, i: nat, j: nat)
    requires i <= j <= |text| && (j < |text| ==> !Accepted(f, text[j]))
    requires forall k :: i <= k < j ==> Accepted(f, text[k])
    ensures RunEnd(text, f, i) == j
    decreases j - i
  {
    if i < j { RunEndIs(text, f, i + 1, j); }
  }

  lemma NotInside(text: string, f: Family, i: nat, a: nat)
    requires 0 < a < |text| && i <= a && !Accepted(f, text[a - 1])
    ensures RunEnd(text, f, i) < a || i == a
  {
  }

  /** No approved run starts at `lo` or behind it, before `hi`. */
  ghost predicate NoRun(text: string, f: Family, lib: Library, lo: nat, hi: nat) {
    forall i, j :: lo <= i < hi ==> !ApprovedRun(text, f, lib, i, j)
  }

  /** The first approved run is found, and one is found whenever there is one. */
  lemma {:induction false} ScanFindsTheFirst(text: string, f: Family, lib: Library, h: nat)
    requires NulFree(text) && RejectsSingles(lib, f)
    requires 0 < h < |text| ==> !Accepted(f, text[h - 1])
    ensures var r := Scan(text, f, lib, h);
      if r.None? then NoRun(text, f, lib, h, |text|)
      else ApprovedRun(text, f, lib, r.value.start, r.value.end) && NoRun(text, f, lib, h, r.value.start)
    decreases |text| - h
  {
    hide NulFree, Approved, RunEnd, NextAccepted, IsRun, NoRun, Scan;
    ScanUnfolds(text, f, lib, h);
    if h + 1 >= |text| {
      LoneRun(text, f, lib, h);
    } else {
      var i := NextAccepted(text, f, h);
      var j := RunEnd(text, f, i);
      BeforeFirst(text, f, lib, h);
      if i < |text| {
        RunStartsHere(text, f, h);
        if !Approved(lib, f, text[i..j]) {
          ScanFindsTheFirst(text, f, lib, j + 1);
          var r := Scan(text, f, lib, j + 1);
          PastRejected(text, f, lib, h, if r.Some? then r.value.start else |text|);
        }
      }
    }
  }

  lemma LoneRun(text: string, f: Family, lib: Library, h: nat)
    requires RejectsSingles(lib, f) && h + 1 >= |text|
    ensures NoRun(text, f, lib, h, |text|)
  {
    hide Approved;
    forall a: nat, b: nat | h <= a && IsRun(text, f, a, b) ensures !ApprovedRun(text, f, lib, a, b) {
      assert |text[a..b]| == 1;
    }
  }

  lemma BeforeFirst(text: string, f: Family, lib: Library, h: nat)
    requires h <= |text| && NulFree(text)
    ensures NoRun(text, f, lib, h, NextAccepted(text, f, h))
  {
    hide NulFree, Approved, RunEnd, NextAccepted, IsRun;
    forall a: nat, b: nat | h <= a && IsRun(text, f, a, b) ensures NextAccepted(text, f, h) <= a {
      RunsFrom(text, f, h, a, b);
    }
  }

  lemma PastRejected(text: string, f: Family, lib: Library, h: nat, hi: nat)
    requires h <= |text| && NulFree(text)
    requires var i := NextAccepted(text, f, h); var j := RunEnd(text, f, i);
      !Approved(lib, f, text[i..j]) && NoRun(text, f, lib, j + 1, hi)
    ensures NoRun(text, f, lib, h, hi)
  {
    hide NulFree, Approved, RunEnd, NextAccepted, IsRun;
    var i := NextAccepted(text, f, h);
    forall a: nat, b: nat | h <= a && IsRun(text, f, a, b) ensures (a == i && b == RunEnd(text, f, i)) || a > RunEnd(text, f, i) {
      RunsFrom(text, f, h, a, b);
    }
  }

  lemma ScanFindsIff(text: string, f: Family, lib: Library)
    requires NulFree(text) && RejectsSingles(lib, f)
    ensures Scan(text, f, lib, 0).Some? <==> exists i, j :: ApprovedRun(text, f, lib, i, j)
  {
    hide Approved, RunEnd, NextAccepted, Scan;
    ScanFindsTheFirst(text, f, lib, 0);
  }

  lemma NotNul(text: string, i: nat)
    requires NulFree(text) && i < |text|
    ensures text[i] != '\0'
  {
    assert text[i] in text;
  }

  lemma RunStartsHere(text: string, f: Family, h: nat)
    requires h < |text| && NulFree(text)
    requires h > 0 ==> !Accepted(f, text[h - 1])
    ensures var i := NextAccepted(text, f, h); i < |text| ==> IsRun(text, f, i, RunEnd(text, f, i))
  {
    var i := NextAccepted(text, f, h);
    if i < |text| { NotNul(text, i); }
  }

  /** What the address buffer holds after the search: the canonical text of the last run the
      library could read, valid or not, and what it held before if there was none. */
  function AddressAfter(text: string, f: Family, lib: Library, h: nat, address: string): string
    decreases |text| - h
  {
    if h + 1 >= |text| then address
    else
      var i := NextAccepted(text, f, h);
      if i == |text| || text[i] == '\0' then address
      else
        var j := RunEnd(text, f, i);
        var c := lib.canonical(f, text[i..j]);
        var now := if c.Some? then c.value else address;
        if Approved(lib, f, text[i..j]) then now else AddressAfter(text, f, lib, j + 1, now)
  }

  lemma AddressUnfolds(text: string, f: Family, lib: Library, h: nat, address: string)
    requires NulFree(text)
    ensures h + 1 >= |text| ==> AddressAfter(text, f, lib, h, address) == address
    ensures h + 1 < |text| ==>
      var i := NextAccepted(text, f, h); var j := RunEnd(text, f, i);
      AddressAfter(text, f, lib, h, address) ==
        if i == |text| then address
        else
          var c := lib.canonical(f, text[i..j]);
          var now := if c.Some? then c.value else address;
          if Approved(lib, f, text[i..j]) then now else AddressAfter(text, f, lib, j + 1, now)
  {
    hide Approved, RunEnd, Accepted, NulFree, NextAccepted;
    if h + 1 < |text| && NextAccepted(text, f, h) < |text| {
      NotNul(text, NextAccepted(text, f, h));
    }
  }

  /** When an address is found the buffer holds it, whatever it held before, and it is valid. */
  lemma {:induction false} FoundAddressIsLeft(text: string, f: Family, lib: Library, h: nat, address: string)
    requires NulFree(text) && Scan(text, f, lib, h).Some?
    ensures var r := Scan(text, f, lib, h).value;
      lib.canonical(f, text[r.start..r.end]) == Some(AddressAfter(text, f, lib, h, address))
    ensures lib.valid(f, AddressAfter(text, f, lib, h, address))
    decreases |text| - h
  {
    hide Scan, AddressAfter, NextAccepted, RunEnd, NulFree;
    ScanUnfolds(text, f, lib, h);
    AddressUnfolds(text, f, lib, h, address);
    var i := NextAccepted(text, f, h);
    var j := RunEnd(text, f, i);
    if !Approved(lib, f, text[i..j]) {
      var c := lib.canonical(f, text[i..j]);
      FoundAddressIsLeft(text, f, lib, j + 1, if c.Some? then c.value else address);
    }
  }

  // ------------------------------------------------------------ in place

  /** `parse_ipv4_address` and `parse_ipv6_address`. The character behind a run is patched to
      NUL for the library and put back; on success the patch stays. `previous` is what the
      address buffer holds before. */
  method ParseAddress(buf: array<char>, f: Family, lib: Library, previous: string, ghost text: string)
    returns (found: bool, address: string)
    requires Holds(buf[..], text)
    modifies buf
    ensures var r := Scan(text, f, lib, 0);
      && found == r.Some?
      && buf[..] == (if found then old(buf[..])[r.value.end := '\0'] else old(buf[..]))
    ensures address == AddressAfter(text, f, lib, 0, previous)
  {
    hide Scan, AddressAfter, NulFree, Approved, NextAccepted, RunEnd;
    found, address := false, previous;
    ghost var was := buf[..];
    var len := StringLength(buf, 0, text);
    var haystack := 0;
    while haystack + 1 < len
      invariant buf[..] == was && !found
      invariant Scan(text, f, lib, haystack) == Scan(text, f, lib, 0)
      invariant AddressAfter(text, f, lib, haystack, address) == AddressAfter(text, f, lib, 0, previous)
      invariant haystack <= len + 1
      decreases len + 1 - haystack
    {
      ScanUnfolds(text, f, lib, haystack);
      AddressUnfolds(text, f, lib, haystack, address);
      SearchesText(was, text, f, haystack);
      var needle := NextAccepted(buf[..], f, haystack);
      SearchStops(was, text, needle);
      if buf[needle] == '\0' { return; }
      SearchesText(was, text, f, needle);
      var end := RunEnd(buf[..], f, needle);
      found, address := TryRun(buf, f, lib, needle, end, address, text);
      if found { return; }
      haystack := end + 1;
    }
    ScanUnfolds(text, f, lib, haystack);
    AddressUnfolds(text, f, lib, haystack, address);
  }

  /** The body of the loop on the run from `needle` to `end`. */
  method TryRun(buf: array<char>, f: Family, lib: Library, needle: nat, end: nat, previous: string, ghost text: string)
    returns (found: bool, address: string)
    requires Holds(buf[..], text) && needle <= end <= |text|
    modifies buf
    ensures found == Approved(lib, f, text[needle..end])
    ensures buf[..] == if found then old(buf[..])[end := '\0'] else old(buf[..])
    ensures var c := lib.canonical(f, text[needle..end]); address == if c.Some? then c.value else previous
  {
    ghost var was := buf[..];
    found, address := false, previous;
    var ch := buf[end];
    buf[end] := '\0';
    PatchedIs(was, text, needle, end);
    var canonical := lib.canonical(f, CString(buf[..], needle));
    if canonical.Some? {
      address := canonical.value;
      if lib.valid(f, address) { found := true; return; }
    }
    buf[end] := ch;
    assert buf[..] == was;
  }

  lemma SearchStops(b: string, text: string, needle: nat)
    requires Holds(b, text) && needle <= |text|
    ensures b[needle] == '\0' <==> needle == |text|
  {
    InsideNotNul(b, text, needle);
  }

  /** What the library sees in the patched buffer. */
  lemma PatchedIs(was: string, text: string, i: nat, j: nat)
    requires Holds(was, text) && i <= j <= |text|
    ensures CString(was[j := '\0'], i) == text[i..j]
  {
    var now := was[j := '\0'];
    forall k | i <= k < j ensures now[k] == text[k] != '\0' {
      InsideNotNul(was, text, k);
    }
    CStringIs(now, i, j);
    assert now[i..j] == text[i..j];
  }

  /** `parse_my_address`: 0 on success. The IPv4 search sees the text as it was. */
  method ParseMyAddress(buf: array<char>, lib: Library, previous: string, ghost text: string)
    returns (rc: int, address: string)
    requires Holds(buf[..], text)
    modifies buf
    ensures var six := Scan(text, V6, lib, 0); var four := Scan(text, V4, lib, 0);
      && rc == (if six.Some? || four.Some? then 0 else 1)
      && (six.Some? ==> lib.canonical(V6, text[six.value.start..six.value.end]) == Some(address))
      && (six.None? && four.Some? ==> lib.canonical(V4, text[four.value.start..four.value.end]) == Some(address))
    ensures rc != 0 ==> buf[..] == old(buf[..])
    ensures var after6 := AddressAfter(text, V6, lib, 0, previous);
      address == if Scan(text, V6, lib, 0).Some? then after6 else AddressAfter(text, V4, lib, 0, after6)
  {
    hide Scan, AddressAfter;
    var found;
    found, address := ParseAddress(buf, V6, lib, previous, text);
    if found {
      FoundAddressIsLeft(text, V6, lib, 0, previous);
      return 0, address;
    }
    ghost var after6 := address;
    found, address := ParseAddress(buf, V4, lib, address, text);
    if found { FoundAddressIsLeft(text, V4, lib, 0, after6); }
    rc := if found then 0 else 1;
  }

  /** An address is found in a reply exactly when some maximal run is an IPv6 or an IPv4
      address for the library. */
  lemma SomeAddressIff(text: string, lib: Library)
    requires NulFree(text) && RejectsSingles(lib, V6) && RejectsSingles(lib, V4)
    ensures Scan(text, V6, lib, 0).Some? || Scan(text, V4, lib, 0).Some? <==>
      exists f, i, j :: ApprovedRun(text, f, lib, i, j)
  {
    hide Scan, ApprovedRun, RejectsSingles, NulFree;
    ScanFindsIff(text, V6, lib);
    ScanFindsIff(text, V4, lib);
    if Scan(text, V6, lib, 0).Some? {
      var i: nat, j: nat :| ApprovedRun(text, V6, lib, i, j);
    } else if Scan(text, V4, lib, 0).Some? {
      var i: nat, j: nat :| ApprovedRun(text, V4, lib, i, j);
    } else {
      forall f, i: nat, j: nat ensures !ApprovedRun(text, f, lib, i, j) {
        match f
        case V6 => assert !ApprovedRun(text, V6, lib, i, j);
        case V4 => assert !ApprovedRun(text, V4, lib, i, j);
      }
    }
  }
}
