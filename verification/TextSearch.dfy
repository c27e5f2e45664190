/** Looking for one text inside another, unit by unit. */
module TextSearch {
  import opened CodeUnits

  predicate OccursAt(text: Text, pattern: Text, p: nat) {
    p + |pattern| <= |text| && forall i :: 0 <= i < |pattern| ==> text[p + i] == pattern[i]
  }

  /** `text.IndexOf(pattern, StringComparison.Ordinal) >= 0`. */
  predicate Contains(text: Text, pattern: Text) {
    exists p :: 0 <= p <= |text| && OccursAt(text, pattern, p)
  }

  lemma OccursInTail(left: Text, right: Text, pattern: Text, p: nat)
    requires p >= |left|
    ensures OccursAt(left + right, pattern, p) <==> OccursAt(right, pattern, p - |left|)
  {
    var t, q := left + right, p - |left|;
    if OccursAt(t, pattern, p) {
      forall i | 0 <= i < |pattern| ensures right[q + i] == pattern[i] { assert t[p + i] == right[q + i]; }
    }
    if OccursAt(right, pattern, q) {
      forall i | 0 <= i < |pattern| ensures t[p + i] == pattern[i] { assert t[p + i] == right[q + i]; }
    }
  }

  /** If a pattern starts nowhere else in `left`, it stands at the front or in what follows. */
  lemma ContainsSplits(left: Text, right: Text, pattern: Text)
    requires left != []
    requires forall p :: 0 < p < |left| ==> !OccursAt(left + right, pattern, p)
    ensures Contains(left + right, pattern) <==> OccursAt(left + right, pattern, 0) || Contains(right, pattern)
  {
    var t := left + right;
    if Contains(t, pattern) && !OccursAt(t, pattern, 0) {
      var p :| 0 <= p <= |t| && OccursAt(t, pattern, p);
      OccursInTail(left, right, pattern, p);
    }
    if Contains(right, pattern) {
      var p :| 0 <= p <= |right| && OccursAt(right, pattern, p);
      OccursInTail(left, right, pattern, p + |left|);
    }
  }
}
