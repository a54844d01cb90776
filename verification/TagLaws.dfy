/** What the three parts of an assignment do to the tags, entry by entry
    (internal/compositor/layout.go). */
module TagLaws {
  import opened Tags

  /** Reading starts an assignment, with the list of that moment, only for a named surface
      and a known tag. */
  lemma BeginMeans(s: State, x: SurfaceID, tag: TagID)
    ensures var t := Began(s, x, tag);
      && t.tags == s.tags && t.placements == s.placements
      && (x == "" || tag !in s.tags ==> t == s)
      && (x != "" && tag in s.tags ==>
           && t.next == s.next + 1 && s.next in t.open
           && t.open[s.next].surface == x && t.open[s.next].tag == tag && t.open[s.next].listed == s.tags[tag]
           && forall a :: a != s.next ==> (a in t.open <==> a in s.open) && (a in s.open ==> t.open[a] == s.open[a]))
  {
  }

  /** A denied assignment is over and leaves no trace. */
  lemma DenyMeans(s: State, a: nat)
    ensures var t := Denied(s, a);
      && t.tags == s.tags && t.placements == s.placements && t.next == s.next && a !in t.open
      && forall b :: b != a ==> (b in t.open <==> b in s.open) && (b in s.open ==> t.open[b] == s.open[b])
  {
  }

  /** A finished one places its surface under its tag, and the tag's list becomes the one
      read at the start with the surface added, whatever the list is by now; no other
      surface and no other tag changes. */
  lemma FinishMeans(s: State, a: nat)
    requires a in s.open
    ensures var job, t := s.open[a], Finished(s, a);
      && job.surface in t.placements && t.placements[job.surface] == job.tag && job.tag in t.tags && a !in t.open
      && (forall x :: x in t.tags[job.tag] <==> x != "" && (x in job.listed || x == job.surface))
      && (forall x :: x != job.surface ==> (x in t.placements <==> x in s.placements) && (x in s.placements ==> t.placements[x] == s.placements[x]))
      && (forall g :: g != job.tag ==> (g in t.tags <==> g in s.tags) && (g in s.tags ==> t.tags[g] == s.tags[g]))
  {
    hide Appended;
    AppendedMeans(s.open[a].listed, s.open[a].surface);
  }
}
