/**
 * The PHP string semantics the pages rely on. Strings are byte strings in
 * PHP; a `string` here holds one char per byte, so `|s|` is `strlen($s)`.
 */
module PhpText {

  /** PHP's `empty()` on a string, and the falsiness of a string in `if`:
      both "" and "0" are empty. */
  predicate Empty(s: string) {
    s == "" || s == "0"
  }

  /** `strtolower` on one byte: only ASCII capitals change. */
  function LowerChar(c: char): char {
    if 'A' <= c <= 'Z' then (c as int + 32) as char else c
  }

  function Lower(s: string): string {
    seq(|s|, i requires 0 <= i < |s| => LowerChar(s[i]))
  }

  /** `str_replace($from, $to, $s)` for single-character needles. */
  function ReplaceChar(s: string, from: char, to: char): string {
    seq(|s|, i requires 0 <= i < |s| => if s[i] == from then to else s[i])
  }

  /** The slug both admin pages derive from a product or category name:
      lower-cased after every space becomes a hyphen. */
  function Slug(name: string): string {
    Lower(ReplaceChar(name, ' ', '-'))
  }

  /** A slug has the name's length, no space and no ASCII capital; each
      space became '-' and every other byte was lower-cased. */
  lemma SlugShape(name: string)
    ensures |Slug(name)| == |name|
    ensures forall i :: 0 <= i < |name| ==>
      Slug(name)[i] == (if name[i] == ' ' then '-' else LowerChar(name[i]))
    ensures ' ' !in Slug(name)
    ensures forall c :: c in Slug(name) ==> !('A' <= c <= 'Z')
  {
    var s := Slug(name);
    forall c | c in s ensures c != ' ' && !('A' <= c <= 'Z') {
      var i :| 0 <= i < |s| && s[i] == c;
    }
  }

  /** Slugging a slug changes nothing. */
  lemma SlugIdempotent(name: string)
    ensures Slug(Slug(name)) == Slug(name)
  {
    SlugShape(name);
    SlugShape(Slug(name));
  }

  /** `p` occurs in `s` starting at byte `i`. */
  predicate ContainsAt(s: string, p: string, i: int) {
    0 <= i && i + |p| <= |s| && s[i..i + |p|] == p
  }

  /** Substring containment: what an unanchored literal pattern tests. */
  predicate Contains(s: string, p: string) {
    exists i | 0 <= i <= |s| :: ContainsAt(s, p, i)
  }

  /** Containment is transitive: a message containing "shipping" contains "hi". */
  lemma ContainsTransitive(s: string, t: string, p: string)
    requires Contains(s, t) && Contains(t, p)
    ensures Contains(s, p)
  {
    var i :| 0 <= i <= |s| && ContainsAt(s, t, i);
    var j :| 0 <= j <= |t| && ContainsAt(t, p, j);
    assert s[i..i + |t|] == t;
    forall k | 0 <= k < |p| ensures s[i + j..i + j + |p|][k] == p[k] {
      assert s[i + j + k] == s[i..i + |t|][j + k] == t[j + k];
    }
    assert ContainsAt(s, p, i + j);
  }

  lemma ContainsMiddle(a: string, b: string, c: string)
    ensures Contains(a + b + c, b)
  {
    assert (a + b + c)[|a|..|a| + |b|] == b;
    assert ContainsAt(a + b + c, b, |a|);
  }

  /** `implode('', $parts)`. */
  function Join(parts: seq<string>): string {
    if parts == [] then "" else Join(parts[..|parts| - 1]) + parts[|parts| - 1]
  }

  /** Every part occurs in the joined string. */
  lemma {:induction false} JoinContainsPart(parts: seq<string>, k: int)
    requires 0 <= k < |parts|
    ensures Contains(Join(parts), parts[k])
  {
    var front := parts[..|parts| - 1];
    if k == |parts| - 1 {
      ContainsMiddle(Join(front), parts[k], "");
      assert Join(front) + parts[k] + "" == Join(parts);
    } else {
      JoinContainsPart(front, k);
      var i :| 0 <= i <= |Join(front)| && ContainsAt(Join(front), parts[k], i);
      assert Join(parts)[i..i + |parts[k]|] == Join(front)[i..i + |parts[k]|];
      assert ContainsAt(Join(parts), parts[k], i);
    }
  }
}
