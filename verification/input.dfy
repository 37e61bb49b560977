/** The input goroutine of main.go: each line of standard input is trimmed,
    and blank lines and `#` comments are dropped. */
module Input {
  import opened Text

  /** A trimmed line is forwarded unless it is empty or a `#` comment. */
  predicate Kept(line: string) {
    line != "" && line[0] != '#'
  }

  /** The domains the input goroutine sends to the scanners, in input order. */
  function InputDomains(lines: seq<string>): seq<string> {
    if lines == [] then []
    else
      var line := TrimSpace(lines[0]);
      var rest := InputDomains(lines[1..]);
      if Kept(line) then [line] + rest else rest
  }

  /** Every forwarded domain is trimmed and kept, and there is at most one
      per input line. */
  lemma {:induction false} InputDomainsClean(lines: seq<string>)
    ensures forall k :: 0 <= k < |InputDomains(lines)| ==> Trimmed(InputDomains(lines)[k]) && Kept(InputDomains(lines)[k])
    ensures |InputDomains(lines)| <= |lines|
  {
    if lines != [] {
      var line := TrimSpace(lines[0]);
      var rest := InputDomains(lines[1..]);
      InputDomainsClean(lines[1..]);
      var ds := InputDomains(lines);
      assert ds == if Kept(line) then [line] + rest else rest;
      forall k | 0 <= k < |ds|
        ensures Trimmed(ds[k]) && Kept(ds[k])
      {
        if !Kept(line) {
          assert ds[k] == rest[k];
        } else if k > 0 {
          assert ds[k] == rest[k - 1];
        }
      }
    }
  }

  /** Some line of the input trims to `d`. */
  predicate SomeLineTrimsTo(lines: seq<string>, d: string) {
    exists i :: 0 <= i < |lines| && TrimSpace(lines[i]) == d
  }

  /** A line of a non-empty input is its first line or a line of the rest. */
  lemma SomeLineTrimsToCons(lines: seq<string>, d: string)
    requires lines != []
    ensures SomeLineTrimsTo(lines, d) <==> TrimSpace(lines[0]) == d || SomeLineTrimsTo(lines[1..], d)
  {
    if SomeLineTrimsTo(lines, d) {
      var i :| 0 <= i < |lines| && TrimSpace(lines[i]) == d;
      if i > 0 {
        assert lines[1..][i - 1] == lines[i];
      }
    }
    if SomeLineTrimsTo(lines[1..], d) {
      var i :| 0 <= i < |lines[1..]| && TrimSpace(lines[1..][i]) == d;
      assert lines[i + 1] == lines[1..][i];
    }
  }

  /** A domain is sent exactly when some input line trims to it and it is
      neither empty nor a comment. */
  lemma {:induction false} InputDomainsMembers(lines: seq<string>, d: string)
    ensures d in InputDomains(lines) <==> Kept(d) && SomeLineTrimsTo(lines, d)
  {
    if lines != [] {
      InputDomainsMembers(lines[1..], d);
      SomeLineTrimsToCons(lines, d);
      var line := TrimSpace(lines[0]);
      assert InputDomains(lines) == if Kept(line) then [line] + InputDomains(lines[1..]) else InputDomains(lines[1..]);
    }
  }

  /** The filter works line by line: splitting the input anywhere splits the
      output at the same point, so order is kept. */
  lemma {:induction false} InputDomainsAppend(a: seq<string>, b: seq<string>)
    ensures InputDomains(a + b) == InputDomains(a) + InputDomains(b)
  {
    if a != [] {
      var line := TrimSpace(a[0]);
      var tail := InputDomains(a[1..]);
      assert (a + b)[0] == a[0];
      assert (a + b)[1..] == a[1..] + b;
      InputDomainsAppend(a[1..], b);
      if Kept(line) {
        assert [line] + (tail + InputDomains(b)) == ([line] + tail) + InputDomains(b);
      }
    } else {
      assert a + b == b;
    }
  }

  /** Filtering what was already filtered changes nothing: forwarded domains
      are trimmed, so the scanner's own trim leaves them as they are. */
  lemma {:induction false} InputDomainsIdempotent(lines: seq<string>)
    ensures InputDomains(InputDomains(lines)) == InputDomains(lines)
  {
    if lines != [] {
      var line := TrimSpace(lines[0]);
      InputDomainsIdempotent(lines[1..]);
      var rest := InputDomains(lines[1..]);
      if Kept(line) {
        assert InputDomains(lines) == [line] + rest;
        TrimSpaceIdempotent(lines[0]);
        InputDomainsAppend([line], rest);
        assert InputDomains([line]) == [line] + InputDomains([]);
      } else {
        assert InputDomains(lines) == rest;
      }
    }
  }
}
