/** The order in which strings are sorted: character by character. */
module StringOrder {

  /** Order of strings by their characters. */
  predicate Leq(left: string, right: string) {
    || left == ""
    || (right != "" && (left[0] < right[0] || (left[0] == right[0] && Leq(left[1..], right[1..]))))
  }

  lemma {:induction false} LeqTotal(left: string, right: string)
    ensures Leq(left, right) || Leq(right, left)
  {
    if left != "" && right != "" && left[0] == right[0] { LeqTotal(left[1..], right[1..]); }
  }

  lemma {:induction false} LeqAntisymmetric(left: string, right: string)
    requires Leq(left, right) && Leq(right, left)
    ensures left == right
  {
    if left != "" && right != "" {
      LeqAntisymmetric(left[1..], right[1..]);
      assert left == [left[0]] + left[1..] && right == [right[0]] + right[1..];
    }
  }

  lemma {:induction false} LeqTransitive(a: string, b: string, c: string)
    requires Leq(a, b) && Leq(b, c)
    ensures Leq(a, c)
  {
    if a != "" && b != "" && c != "" && a[0] == b[0] == c[0] { LeqTransitive(a[1..], b[1..], c[1..]); }
  }

  predicate Less(left: string, right: string) {
    left != right && Leq(left, right)
  }

  lemma LessTransitive(a: string, b: string, c: string)
    requires Less(a, b) && Less(b, c)
    ensures Less(a, c)
  {
    LeqTransitive(a, b, c);
    if a == c { LeqAntisymmetric(a, b); }
  }
}
