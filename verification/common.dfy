/** Values shared by every controller and form of the HR application: optional
    values, handler replies, the caller attached by the token middleware,
    calendar days, and the handful of JavaScript string operations the
    handlers rely on (`trim`, `toLowerCase`, `includes`, `String(n)`). */
module Common {

  datatype Option<T> = None | Some(value: T) {
    /** The value, or `d` when absent: how a schema default fills a missing path. */
    function GetOr(d: T): T {
      if Some? then value else d
    }
  }

  /** A JavaScript string value that is present and truthy (not ""). */
  predicate Given(o: Option<string>) {
    o.Some? && o.value != ""
  }

  /** A JavaScript number that is present and truthy (not 0). */
  predicate GivenNum(o: Option<int>) {
    o.Some? && o.value != 0
  }

  /** `o || d` on an optional string. */
  function Or(o: Option<string>, d: string): string {
    if Given(o) then o.value else d
  }

  /** What an Express handler sends: a value with a success status, or an
      error status with its JSON `message`. */
  datatype Reply<T> = Ok(value: T) | Refused(code: nat, message: string)

  /** The principal that the token middleware attaches to a request: the
      identity claim (`req.user`, "" when the token carries none) and
      `req.roles`. */
  datatype Caller = Caller(identity: string, roles: seq<string>)

  /** `roles?.includes("admin")` */
  predicate IsAdmin(c: Caller) {
    "admin" in c.roles
  }

  /** A calendar day in local time, counted from 1970-01-01. */
  type Day = int

  /** `Date.getDay()`: 0 is Sunday, 6 is Saturday; 1970-01-01 was a Thursday. */
  function Weekday(d: Day): (w: nat)
    ensures w < 7
  {
    (d + 4) % 7
  }

  /** `s.filter(p)`: the elements of `s` that satisfy `p`, in their order. */
  function Filter<T>(s: seq<T>, p: T -> bool): (r: seq<T>)
    ensures |r| <= |s|
    ensures forall i :: 0 <= i < |r| ==> p(r[i])
  {
    if s == [] then []
    else Filter(s[..|s| - 1], p) + (if p(s[|s| - 1]) then [s[|s| - 1]] else [])
  }

  /** An element survives the filter exactly when it is in `s` and satisfies `p`. */
  lemma {:induction false} FilterMember<T>(s: seq<T>, p: T -> bool, x: T)
    ensures x in Filter(s, p) <==> x in s && p(x)
  {
    if s != [] {
      FilterMember(s[..|s| - 1], p, x);
      assert s == s[..|s| - 1] + [s[|s| - 1]];
    }
  }

  /** A relation that holds between every earlier and later element of `s`
      still holds along `Filter(s, p)`: filtering keeps the order. */
  lemma {:induction false} FilterKeepsOrder<T>(s: seq<T>, p: T -> bool, rel: (T, T) -> bool)
    requires forall i, j :: 0 <= i < j < |s| ==> rel(s[i], s[j])
    ensures forall i, j :: 0 <= i < j < |Filter(s, p)| ==> rel(Filter(s, p)[i], Filter(s, p)[j])
  {
    if s != [] {
      var init := s[..|s| - 1];
      FilterKeepsOrder(init, p, rel);
      var f := Filter(init, p);
      forall i | 0 <= i < |f| ensures rel(f[i], s[|s| - 1]) {
        FilterMember(init, p, f[i]);
        var k :| 0 <= k < |init| && init[k] == f[i];
      }
    }
  }

  lemma {:induction false} FilterAll<T>(s: seq<T>, p: T -> bool)
    requires forall i :: 0 <= i < |s| ==> p(s[i])
    ensures Filter(s, p) == s
  {
    if s != [] {
      FilterAll(s[..|s| - 1], p);
      assert s[..|s| - 1] + [s[|s| - 1]] == s;
    }
  }

  lemma {:induction false} FilterAppend<T>(s: seq<T>, t: seq<T>, p: T -> bool)
    ensures Filter(s + t, p) == Filter(s, p) + Filter(t, p)
    decreases |t|
  {
    if t == [] {
      assert s + t == s;
    } else {
      FilterAppend(s, t[..|t| - 1], p);
      assert (s + t)[..|s + t| - 1] == s + t[..|t| - 1];
    }
  }

  /** `s` read from its last element back to its first. */
  function Reverse<T>(s: seq<T>): (r: seq<T>)
    ensures |r| == |s|
    ensures forall i :: 0 <= i < |s| ==> r[i] == s[|s| - 1 - i]
  {
    seq(|s|, i requires 0 <= i < |s| => s[|s| - 1 - i])
  }

  /** A filter and its complement split `s`: together they keep every element once. */
  lemma {:induction false} FilterComplement<T>(s: seq<T>, p: T -> bool, q: T -> bool)
    requires forall i :: 0 <= i < |s| ==> q(s[i]) == !p(s[i])
    ensures |Filter(s, p)| + |Filter(s, q)| == |s|
  {
    if s != [] {
      FilterComplement(s[..|s| - 1], p, q);
    }
  }

  /** Removing the one element `p` rejects from a sequence whose other
      elements `p` all accepts leaves the rest in order. */
  lemma {:induction false} FilterDropsOne<T>(s: seq<T>, k: nat, p: T -> bool)
    requires k < |s| && !p(s[k])
    requires forall i :: 0 <= i < |s| && i != k ==> p(s[i])
    ensures Filter(s, p) == s[..k] + s[k + 1..]
  {
    var n := |s| - 1;
    var init := s[..n];
    if k == n {
      assert forall i :: 0 <= i < |init| ==> p(init[i]) by {
        forall i | 0 <= i < |init| ensures p(init[i]) { assert init[i] == s[i]; }
      }
      FilterAll(init, p);
      assert s[k + 1..] == [];
    } else {
      assert init[k] == s[k];
      assert forall i :: 0 <= i < |init| && i != k ==> p(init[i]) by {
        forall i | 0 <= i < |init| && i != k ensures p(init[i]) { assert init[i] == s[i]; }
      }
      FilterDropsOne(init, k, p);
      assert init[..k] == s[..k];
      assert init[k + 1..] + [s[n]] == s[k + 1..];
    }
  }

  /** ECMAScript WhiteSpace and LineTerminator code points: what `\s` matches
      and what `String.prototype.trim` strips. */
  predicate IsSpace(c: char) {
    c == '\t' || c == '\n' || c == '\U{B}' || c == '\U{C}' || c == '\r' ||
    c == ' ' || c == '\U{A0}' || c == '\U{1680}' || ('\U{2000}' <= c <= '\U{200A}') ||
    c == '\U{2028}' || c == '\U{2029}' || c == '\U{202F}' || c == '\U{205F}' ||
    c == '\U{3000}' || c == '\U{FEFF}'
  }

  /** `!s.trim()`: the string is empty or made only of white space. */
  predicate Blank(s: string) {
    forall i :: 0 <= i < |s| ==> IsSpace(s[i])
  }

  /** Neither end of `s` is white space: `s.trim()` would leave it as it is. */
  predicate Trimmed(s: string) {
    s == [] || (!IsSpace(s[0]) && !IsSpace(s[|s| - 1]))
  }

  /** `s.trim()`, the setter of every schema path declared `trim: true`:
      white space is dropped from either end until neither end is white
      space, so a trimmed string is left as it is. */
  function Trim(s: string): (r: string)
    ensures r == "" <==> Blank(s)
    ensures |r| <= |s|
    ensures Trimmed(r)
    ensures Trimmed(s) ==> r == s
    decreases |s|
  {
    if s != [] && IsSpace(s[0]) then
      assert Blank(s) <==> Blank(s[1..]) by {
        if Blank(s[1..]) {
          forall i | 0 <= i < |s| ensures IsSpace(s[i]) {
            if i > 0 { assert s[i] == s[1..][i - 1]; }
          }
        }
      }
      Trim(s[1..])
    else if s != [] && IsSpace(s[|s| - 1]) then
      assert Blank(s) <==> Blank(s[..|s| - 1]) by {
        if Blank(s[..|s| - 1]) {
          forall i | 0 <= i < |s| ensures IsSpace(s[i]) {
            if i < |s| - 1 { assert s[i] == s[..|s| - 1][i]; }
          }
        }
      }
      Trim(s[..|s| - 1])
    else
      s
  }

  /** `toLowerCase` on the ASCII letters; other characters are kept. */
  function LowerChar(c: char): char {
    if 'A' <= c <= 'Z' then (c as int + 32) as char else c
  }

  function Lower(s: string): (r: string)
    ensures |r| == |s|
    ensures forall i :: 0 <= i < |s| ==> r[i] == LowerChar(s[i])
  {
    seq(|s|, i requires 0 <= i < |s| => LowerChar(s[i]))
  }

  /** `needle` sits in `hay` starting at position `i`. */
  predicate OccursAt(hay: string, needle: string, i: int) {
    0 <= i <= |hay| - |needle| && hay[i..i + |needle|] == needle
  }

  /** `hay.includes(needle)`: `needle` occurs at some position of `hay`. */
  ghost predicate Occurs(hay: string, needle: string) {
    exists i :: OccursAt(hay, needle, i)
  }

  /** The left-to-right scan that decides `includes`. */
  function Includes(hay: string, needle: string): (b: bool)
    ensures b <==> Occurs(hay, needle)
  {
    if needle <= hay then
      assert OccursAt(hay, needle, 0);
      true
    else if hay == [] then
      assert !OccursAt(hay, needle, 0);
      false
    else
      var b := Includes(hay[1..], needle);
      IncludesStep(hay, needle);
      b
  }

  /** A match that is not at position 0 is a match in the tail, and back. */
  lemma IncludesStep(hay: string, needle: string)
    requires hay != [] && !(needle <= hay)
    ensures Occurs(hay, needle) <==> Occurs(hay[1..], needle)
  {
    if Occurs(hay, needle) {
      var i :| OccursAt(hay, needle, i);
      assert i != 0;
      assert OccursAt(hay[1..], needle, i - 1);
    }
    if Occurs(hay[1..], needle) {
      var i :| OccursAt(hay[1..], needle, i);
      assert OccursAt(hay, needle, i + 1);
    }
  }

  /** `String(n)` for a natural number: its decimal digits. */
  function Decimal(n: nat): (s: string)
    ensures |s| >= 1
    ensures forall i :: 0 <= i < |s| ==> '0' <= s[i] <= '9'
    decreases n
  {
    if n < 10 then [DigitChar(n)] else Decimal(n / 10) + [DigitChar(n % 10)]
  }

  function DigitChar(d: nat): (c: char)
    requires d < 10
    ensures '0' <= c <= '9'
  {
    (48 + d) as char
  }

  /** `Array.prototype.join(sep)`. */
  function Join(parts: seq<string>, sep: string): string {
    if parts == [] then ""
    else if |parts| == 1 then parts[0]
    else Join(parts[..|parts| - 1], sep) + sep + parts[|parts| - 1]
  }
}
