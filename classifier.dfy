/** The context-menu handler's checks on the selected text (background.js:13-24):
    trim it, reject it when empty or longer than 253 code units, then classify it
    as an IPv4 literal or a hostname with the pattern `^(\d{1,3}\.){3}\d{1,3}$`. */
module Classifier {
  import opened Wrappers
  import opened Strings

  /** The longest accepted term: the DNS bound on a hostname. */
  const MaxTermLength := 253

  datatype SearchKind = Ip | Hostname

  /** The `searchType` string the extension stores and sends in messages. */
  function KindName(k: SearchKind): (name: string)
    ensures name == "ip" <==> k == Ip
    ensures name == "hostname" <==> k == Hostname
  {
    match k
    case Ip => "ip"
    case Hostname => "hostname"
  }

  datatype SearchQuery = SearchQuery(term: string, kind: SearchKind)

  /** The handler logs and returns without a lookup for a rejected selection. */
  datatype ValidationError = InvalidSearchTerm

  /** The pattern `^(\d{1,3}\.){3}\d{1,3}$` as a left-to-right scan of `s` from
      position `i`, having passed `dots` dots and `run` digits of the current group.
      `\d` without the `u` flag is an ASCII digit and `$` without `m` is the end. */
  predicate ScanQuad(s: string, i: nat, dots: nat, run: nat)
    requires i <= |s|
    decreases |s| - i
  {
    if i == |s| then dots == 3 && 1 <= run <= 3
    else if IsDigit(s[i]) then run < 3 && ScanQuad(s, i + 1, dots, run + 1)
    else if s[i] == '.' then 1 <= run && dots < 3 && ScanQuad(s, i + 1, dots + 1, 0)
    else false
  }

  /** `ipv4Regex.test(s)`. */
  predicate IsDottedQuad(s: string) {
    ScanQuad(s, 0, 0, 0)
  }

  predicate AllDigits(g: string) {
    forall k :: 0 <= k < |g| ==> IsDigit(g[k])
  }

  /** One to three ASCII digits; no range check on the value. */
  predicate IsDigitGroup(g: string) {
    1 <= |g| <= 3 && AllDigits(g)
  }

  /** Independent statement of the pattern: splitting on dots gives exactly four
      pieces, each a group of one to three digits. */
  predicate FourDigitGroups(s: string) {
    var g := Split(s, '.');
    |g| == 4 && forall k :: 0 <= k < 4 ==> IsDigitGroup(g[k])
  }

  /** The scan from any state agrees with the split view of the rest of the input:
      the current group continues into the first piece, and the dots still needed
      are the remaining pieces. */
  lemma {:induction false} ScanQuadSplit(s: string, i: nat, dots: nat, run: nat)
    requires i <= |s| && dots <= 3 && run <= 3
    ensures var g := Split(s[i..], '.');
      ScanQuad(s, i, dots, run) <==>
        |g| == 4 - dots && 1 <= run + |g[0]| <= 3 && AllDigits(g[0])
        && forall k :: 1 <= k < |g| ==> IsDigitGroup(g[k])
    decreases |s| - i
  {
    var t := s[i..];
    var g := Split(t, '.');
    if i == |s| {
      assert t == [];
      assert g == [""];
    } else {
      assert t[0] == s[i];
      assert t[1..] == s[i + 1..];
      var rest := Split(s[i + 1..], '.');
      if IsDigit(s[i]) {
        assert g == [[s[i]] + rest[0]] + rest[1..];
        var g0 := [s[i]] + rest[0];
        assert g[0] == g0;
        assert forall k :: 0 <= k < |rest[0]| ==> g0[k + 1] == rest[0][k];
        assert AllDigits(g0) <==> AllDigits(rest[0]) by {
          assert forall k :: 1 <= k < |g0| ==> g0[k] == rest[0][k - 1];
        }
        if run == 3 {
          assert !ScanQuad(s, i, dots, run);
        } else {
          ScanQuadSplit(s, i + 1, dots, run + 1);
        }
        assert forall k :: 1 <= k < |g| ==> g[k] == rest[k];
      } else if s[i] == '.' {
        assert g == [""] + rest;
        assert forall k :: 1 <= k < |g| ==> g[k] == rest[k - 1];
        assert |g[0]| == 0 && AllDigits(g[0]);
        if forall k :: 1 <= k < |g| ==> IsDigitGroup(g[k]) {
          forall k | 0 <= k < |rest| ensures IsDigitGroup(rest[k]) {
            assert g[k + 1] == rest[k];
          }
        }
        if dots < 3 {
          ScanQuadSplit(s, i + 1, dots + 1, 0);
        }
      } else {
        assert g == [[s[i]] + rest[0]] + rest[1..];
        assert !IsDigit(g[0][0]);
      }
    }
  }

  /** The hand-written scan recognises exactly the four-group shape. */
  lemma DottedQuadIff(s: string)
    ensures IsDottedQuad(s) <==> FourDigitGroups(s)
  {
    ScanQuadSplit(s, 0, 0, 0);
    assert s[0..] == s;
  }

  /** Classification of the selected text: rejected when its trim is empty or
      longer than 253 UTF-16 code units, otherwise an IP query exactly when the
      whole trimmed term has the four-group shape. */
  function Classify(selection: string): (r: Result<SearchQuery, ValidationError>)
    ensures var t := Trim(selection);
      r.Failure? <==> t == [] || Utf16Length(t) > MaxTermLength
    ensures r.Success? ==> r.value.term == Trim(selection)
    ensures r.Success? ==> 1 <= |r.value.term| <= MaxTermLength
    ensures r.Success? ==> (r.value.kind == Ip <==> FourDigitGroups(r.value.term))
  {
    var term := Trim(selection);
    if term == [] || Utf16Length(term) > MaxTermLength then Failure(InvalidSearchTerm)
    else
      DottedQuadIff(term);
      Success(SearchQuery(term, if IsDottedQuad(term) then Ip else Hostname))
  }

  /** Out-of-range octets still have the IPv4 shape; five groups, a four-digit
      group, an empty group or a name do not. */
  lemma DottedQuadExamples()
    ensures IsDottedQuad("999.999.999.999")
    ensures IsDottedQuad("192.168.1.1")
    ensures !IsDottedQuad("1.2.3.4.5")
    ensures !IsDottedQuad("1234.1.1.1")
    ensures !IsDottedQuad("1..2.3")
    ensures !IsDottedQuad("db01.internal")
  {
    assert ScanQuad("999.999.999.999", 12, 3, 0);
    assert ScanQuad("999.999.999.999", 8, 2, 0);
    assert ScanQuad("999.999.999.999", 4, 1, 0);
    assert ScanQuad("192.168.1.1", 10, 3, 0);
    assert ScanQuad("192.168.1.1", 8, 2, 0);
    assert ScanQuad("192.168.1.1", 4, 1, 0);
  }
}
