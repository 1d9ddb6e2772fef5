/** The e-mail pattern both screens test before calling the session store:
    `^[^\s@]+@[^\s@]+\.[^\s@]+$`. It is given twice: `Matches` reads the
    pattern literally (three runs of `[^\s@]` around an '@' and a '.'), and
    `IsEmail` is the form the screens evaluate (exactly one '@', no
    whitespace, a non-empty local part, a domain holding a '.' with text on
    both sides). `IsEmailMatchesPattern` proves the two agree. */
module EmailPattern {
  import opened Strings

  /** What both screens show when the pattern does not match. */
  const InvalidEmailFormat: string := "Invalid email format."

  /** One character of the class `[^\s@]`. */
  predicate Plain(c: char) {
    c != '@' && !IsSpace(c)
  }

  predicate AllPlain(s: string) {
    forall k :: 0 <= k < |s| ==> Plain(s[k])
  }

  /** The pattern matches `s` with its '@' at index `i` and the '.' it requires
      at index `j`: `s[..i]`, `s[i+1..j]` and `s[j+1..]` are non-empty runs
      of `[^\s@]`. */
  ghost predicate MatchesAt(s: string, i: int, j: int) {
    0 < i && i + 1 < j && j + 1 < |s| && s[i] == '@' && s[j] == '.' &&
    AllPlain(s[..i]) && AllPlain(s[i + 1..j]) && AllPlain(s[j + 1..])
  }

  /** `emailRegex.test(s)`. */
  ghost predicate Matches(s: string)
    // three non-empty runs and the two separators: at least five characters, not starting with '@'
    ensures Matches(s) ==> 5 <= |s| && s[0] != '@' && !IsSpace(s[0])
  {
    exists i, j :: MatchesAt(s, i, j)
  }

  /** Index of the first occurrence of `c` in `s`, or `|s|` when there is none. */
  function IndexOf(s: string, c: char): (r: nat)
    ensures r <= |s|
    ensures r < |s| ==> s[r] == c
    ensures forall k :: 0 <= k < r ==> s[k] != c
  {
    if s == [] then 0
    else if s[0] == c then 0
    else 1 + IndexOf(s[1..], c)
  }

  predicate NoSpace(s: string) {
    forall k :: 0 <= k < |s| ==> !IsSpace(s[k])
  }

  /** The domain holds a '.' that has at least one character on each side. */
  predicate HasInnerDot(d: string) {
    exists j :: 1 <= j < |d| - 1 && d[j] == '.'
  }

  /** Exactly one '@', not at the start; no whitespace; a domain after the
      '@' with an inner '.'. */
  predicate IsEmail(s: string)
    ensures IsEmail(s) ==>
              exists i :: 0 < i < |s| && s[i] == '@' && forall k :: 0 <= k < |s| && k != i ==> s[k] != '@'
  {
    var at := IndexOf(s, '@');
    0 < at < |s| && NoSpace(s) &&
    (forall k :: at < k < |s| ==> s[k] != '@') &&
    HasInnerDot(s[at + 1..])
  }

  /** The evaluated form and the literal reading of the pattern accept the
      same strings. */
  lemma IsEmailMatchesPattern(s: string)
    ensures IsEmail(s) <==> Matches(s)
  {
    if IsEmail(s) {
      var at := IndexOf(s, '@');
      var d := s[at + 1..];
      var j' :| 1 <= j' < |d| - 1 && d[j'] == '.';
      var j := at + 1 + j';
      assert s[j] == '.';
      assert MatchesAt(s, at, j);
    }
    if Matches(s) {
      var i, j :| MatchesAt(s, i, j);
      forall k | 0 <= k < i ensures s[k] != '@' {
        assert s[..i][k] == s[k];
      }
      assert IndexOf(s, '@') == i;
      forall k | 0 <= k < |s| ensures !IsSpace(s[k]) {
        if k < i {
          assert s[..i][k] == s[k];
        } else if i < k < j {
          assert s[i + 1..j][k - i - 1] == s[k];
        } else if j < k {
          assert s[j + 1..][k - j - 1] == s[k];
        }
      }
      forall k | i < k < |s| ensures s[k] != '@' {
        if k < j {
          assert s[i + 1..j][k - i - 1] == s[k];
        } else if j < k {
          assert s[j + 1..][k - j - 1] == s[k];
        }
      }
      assert s[i + 1..][j - i - 1] == '.';
    }
  }
}
