/** When an upper layer, or what is left of one, changes what an overlay mount shows: conditions read
    off the layers themselves. */
module OverlayChange {
  import opened Overlay
  import opened Trees

  // ---------- the conditions ----------

  /** Entry i counts: it is not one of the ignored markers. */
  predicate Counts(m: Markers, es: seq<(Name, Upper)>, i: int)
    requires 0 <= i < |es|
  {
    !IsIgnored(m, es[i].0, es[i].1)
  }

  /** A counting entry is called n. */
  predicate HasEntry(m: Markers, es: seq<(Name, Upper)>, n: Name) {
    exists i :: 0 <= i < |es| && Counts(m, es, i) && es[i].0 == n
  }

  /** u with nothing below it is spelled out in t: entry by entry, and t has no others. */
  predicate Spells(m: Markers, u: Upper, t: Option<Tree>)
    decreases u
  {
    match u
    case Whiteout => t.None?
    case UpperFile(d) => t == Some(File(d))
    case UpperDir(_, es) =>
      && t.Some? && t.value.Dir?
      && (forall i | 0 <= i < |es| && Counts(m, es, i) :: Spells(m, es[i].1, Child(t, es[i].0)))
      && (forall n | n in t.value.entries :: HasEntry(m, es, n))
  }

  /** u changes nothing about l: whiteouts where nothing is, files that are there already, opaque
      directories that spell out all they hide, other directories with entries that change nothing. */
  predicate NoEffect(m: Markers, u: Upper, l: Option<Tree>)
    decreases u
  {
    match u
    case Whiteout => l.None?
    case UpperFile(d) => l == Some(File(d))
    case UpperDir(o, es) =>
      && l.Some? && l.value.Dir?
      && if o then Spells(m, u, l) else forall i | 0 <= i < |es| && Counts(m, es, i) :: NoEffect(m, es[i].1, Child(l, es[i].0))
  }

  /** Nothing of l shows through u: in directories that are not opaque every lower entry is named, and
      nothing of it shows through the entry that names it. */
  predicate HidesAll(m: Markers, u: Upper, l: Option<Tree>)
    decreases u
  {
    u.UpperDir? && !u.isOpaque && l.Some? && l.value.Dir? ==>
      && (forall i | 0 <= i < |u.entries| && Counts(m, u.entries, i) :: HidesAll(m, u.entries[i].1, Child(l, u.entries[i].0)))
      && (forall n | n in l.value.entries :: HasEntry(m, u.entries, n))
  }

  /** What deleting an upper layer can leave of it: directories with some of their entries. */
  predicate LeftOf(part: Upper, full: Upper)
    decreases part
  {
    if part.UpperDir? then
      && full.UpperDir? && full.isOpaque == part.isOpaque && DistinctNames(part.entries)
      && forall i | 0 <= i < |part.entries| ::
           exists j :: 0 <= j < |full.entries| && full.entries[j].0 == part.entries[i].0
                       && LeftOf(part.entries[i].1, full.entries[j].1)
    else part == full
  }

  /** What lies below entry n of u, when l lies below u. */
  function Below(u: Upper, l: Option<Tree>, n: Name): Option<Tree> {
    if u.UpperDir? && u.isOpaque then None else Child(l, n)
  }

  /** Over l, part shows what full does: what is lost changed nothing. */
  predicate SameOver(m: Markers, part: Upper, full: Upper, l: Option<Tree>)
    decreases full
  {
    part.UpperDir? && full.UpperDir? ==>
      forall j | 0 <= j < |full.entries| && Counts(m, full.entries, j) ::
        var (n, v) := full.entries[j];
        match Find(m, part.entries, n)
        case Some(w) => SameOver(m, w, v, Below(full, l, n))
        case None => NoEffect(m, v, Below(full, l, n))
  }

  /** The markers among u's entries, which a write-back drops, change nothing about l. */
  predicate MarkersIdle(m: Markers, u: Upper, l: Option<Tree>)
    decreases u
  {
    u.UpperDir? ==>
      forall i | 0 <= i < |u.entries| && Counts(m, u.entries, i) ::
        var (n, v) := u.entries[i];
        if IsIgnored(Dropped, n, v) then NoEffect(m, v, Below(u, l, n)) else MarkersIdle(m, v, Below(u, l, n))
  }

  /** Once full has been written back over l, part makes up for what that dropped and hides nothing of
      the rest: whatever is opaque, and all that is below it, has lost nothing that changed anything;
      of the others, markers may be lost where they changed nothing. */
  predicate HidesNothing(m: Markers, part: Upper, full: Upper, l: Option<Tree>)
    decreases full
  {
    part.UpperDir? && full.UpperDir? ==>
      if full.isOpaque then SameOver(m, part, full, None)
      else
        forall j | 0 <= j < |full.entries| && Counts(m, full.entries, j) ::
          var (n, v) := full.entries[j];
          match Find(m, part.entries, n)
          case Some(w) => IsIgnored(Dropped, n, v) || HidesNothing(m, w, v, Child(l, n))
          case None => if IsIgnored(Dropped, n, v) then NoEffect(m, v, Child(l, n)) else MarkersIdle(m, v, Child(l, n))
  }

  // ---------- entries and children ----------

  lemma {:induction false} FoundAt(m: Markers, es: seq<(Name, Upper)>, i: nat)
    requires DistinctNames(es) && i < |es| && Counts(m, es, i)
    ensures Find(m, es, es[i].0) == Some(es[i].1)
  {
    if i > 0 {
      assert es[1..][i - 1] == es[i];
      FoundAt(m, es[1..], i - 1);
    }
  }

  lemma {:induction false} FoundIndex(m: Markers, es: seq<(Name, Upper)>, n: Name) returns (i: nat)
    requires Find(m, es, n).Some?
    ensures i < |es| && Counts(m, es, i) && es[i].0 == n && es[i].1 == Find(m, es, n).value
  {
    if es[0].0 == n && !IsIgnored(m, es[0].0, es[0].1) {
      i := 0;
    } else {
      var k := FoundIndex(m, es[1..], n);
      i := k + 1;
    }
  }

  lemma {:induction false} FindHas(m: Markers, es: seq<(Name, Upper)>, n: Name)
    requires DistinctNames(es)
    ensures Find(m, es, n).Some? <==> HasEntry(m, es, n)
  {
    if Find(m, es, n).Some? {
      var i := FoundIndex(m, es, n);
    }
    forall i: nat | i < |es| && Counts(m, es, i)
      ensures Find(m, es, es[i].0).Some?
    {
      FoundAt(m, es, i);
    }
  }

  /** Directories are the same when their children are. */
  lemma {:induction false} SameChildren(a: Tree, b: Tree)
    requires a.Dir? && b.Dir?
    requires forall n: Name :: Child(Some(a), n) == Child(Some(b), n)
    ensures a == b
  {
    forall n: Name
      ensures n in a.entries <==> n in b.entries
      ensures n in a.entries ==> a.entries[n] == b.entries[n]
    {
      assert Child(Some(a), n) == Child(Some(b), n);
    }
    assert a.entries == b.entries;
  }

  /** A child of the merge, for an entry that counts and for a name that has none. */
  lemma {:induction false} MergedEntry(m: Markers, u: Upper, l: Option<Tree>, i: nat)
    requires u.UpperDir? && Valid(u) && i < |u.entries| && Counts(m, u.entries, i)
    ensures var (n, v) := u.entries[i]; Child(Merge(m, u, l), n) == Merge(m, v, Below(u, l, n)) && Valid(v)
  {
    ChildOfMerge(m, u, l, u.entries[i].0);
    FoundAt(m, u.entries, i);
  }

  lemma {:induction false} UnnamedEntry(m: Markers, u: Upper, l: Option<Tree>, n: Name)
    requires u.UpperDir? && Valid(u) && !HasEntry(m, u.entries, n)
    ensures Child(Merge(m, u, l), n) == Below(u, l, n)
  {
    ChildOfMerge(m, u, l, n);
    FindHas(m, u.entries, n);
  }

  // ---------- the conditions are exact ----------

  lemma {:induction false} SpellsIff(m: Markers, u: Upper, t: Option<Tree>)
    requires Valid(u)
    ensures Merge(m, u, None) == t <==> Spells(m, u, t)
    decreases u
  {
    if u.UpperDir? && t.Some? && t.value.Dir? {
      var es, seen := u.entries, Merge(m, u, None);
      forall i | 0 <= i < |es| && Counts(m, es, i)
        ensures Child(seen, es[i].0) == Child(t, es[i].0) <==> Spells(m, es[i].1, Child(t, es[i].0))
      {
        MergedEntry(m, u, None, i);
        SpellsIff(m, es[i].1, Child(t, es[i].0));
      }
      forall n: Name | !HasEntry(m, es, n)
        ensures Child(seen, n) == None
      {
        UnnamedEntry(m, u, None, n);
      }
      if Spells(m, u, t) {
        forall n: Name
          ensures Child(seen, n) == Child(t, n)
        {
          if HasEntry(m, es, n) {
            var i :| 0 <= i < |es| && Counts(m, es, i) && es[i].0 == n;
          }
        }
        SameChildren(seen.value, t.value);
      }
    }
  }

  /** Merging u over l gives l back exactly when u has no effect on it. */
  lemma {:induction false} NoEffectIff(m: Markers, u: Upper, l: Option<Tree>)
    requires Valid(u)
    ensures Merge(m, u, l) == l <==> NoEffect(m, u, l)
    decreases u
  {
    if u.UpperDir? && l.Some? && l.value.Dir? {
      if u.isOpaque {
        SpellsIff(m, u, l);
        OpaqueMerge(m, u, l);
      } else {
        var es, seen := u.entries, Merge(m, u, l);
        forall i | 0 <= i < |es| && Counts(m, es, i)
          ensures Child(seen, es[i].0) == Child(l, es[i].0) <==> NoEffect(m, es[i].1, Child(l, es[i].0))
        {
          MergedEntry(m, u, l, i);
          NoEffectIff(m, es[i].1, Child(l, es[i].0));
        }
        if NoEffect(m, u, l) {
          forall n: Name
            ensures Child(seen, n) == Child(l, n)
          {
            if HasEntry(m, es, n) {
              var i :| 0 <= i < |es| && Counts(m, es, i) && es[i].0 == n;
            } else {
              UnnamedEntry(m, u, l, n);
            }
          }
          SameChildren(seen.value, l.value);
        }
      }
    }
  }

  /** An opaque directory shows nothing of what is below it. */
  lemma {:induction false} OpaqueMerge(m: Markers, u: Upper, l: Option<Tree>)
    requires u.UpperDir? && u.isOpaque
    ensures Merge(m, u, l) == Merge(m, u, None)
  {
  }

  /** The lower layer makes no difference exactly when it is hidden. */
  lemma {:induction false} HidesAllIff(m: Markers, u: Upper, l: Option<Tree>)
    requires Valid(u)
    ensures Merge(m, u, l) == Merge(m, u, None) <==> HidesAll(m, u, l)
    decreases u
  {
    if u.UpperDir? && !u.isOpaque && l.Some? && l.value.Dir? {
      var es, seen, k := u.entries, Merge(m, u, l), Merge(m, u, None);
      forall i | 0 <= i < |es| && Counts(m, es, i)
        ensures Child(seen, es[i].0) == Child(k, es[i].0) <==> HidesAll(m, es[i].1, Child(l, es[i].0))
      {
        MergedEntry(m, u, l, i);
        MergedEntry(m, u, None, i);
        HidesAllIff(m, es[i].1, Child(l, es[i].0));
      }
      forall n: Name | !HasEntry(m, es, n)
        ensures Child(seen, n) == Child(l, n) && Child(k, n) == None
      {
        UnnamedEntry(m, u, l, n);
        UnnamedEntry(m, u, None, n);
      }
      if HidesAll(m, u, l) {
        forall n: Name
          ensures Child(seen, n) == Child(k, n)
        {
          if HasEntry(m, es, n) {
            var i :| 0 <= i < |es| && Counts(m, es, i) && es[i].0 == n;
          }
        }
        SameChildren(seen.value, k.value);
      }
    }
  }

  // ---------- what a deletion leaves ----------

  lemma {:induction false} LeftIsValid(part: Upper, full: Upper)
    requires LeftOf(part, full)
    ensures Valid(part)
    decreases part
  {
    if part.UpperDir? {
      forall i | 0 <= i < |part.entries|
        ensures Valid(part.entries[i].1)
      {
        var j :| 0 <= j < |full.entries| && full.entries[j].0 == part.entries[i].0 && LeftOf(part.entries[i].1, full.entries[j].1);
        LeftIsValid(part.entries[i].1, full.entries[j].1);
      }
    }
  }

  /** What is left of a directory is left of the entries of the same names. */
  lemma {:induction false} LeftEntry(m: Markers, part: Upper, full: Upper, n: Name)
    requires part.UpperDir? && full.UpperDir? && Valid(full) && LeftOf(part, full) && Find(m, part.entries, n).Some?
    ensures Find(m, full.entries, n).Some? && LeftOf(Find(m, part.entries, n).value, Find(m, full.entries, n).value)
  {
    var i := FoundIndex(m, part.entries, n);
    var j :| 0 <= j < |full.entries| && full.entries[j].0 == n && LeftOf(part.entries[i].1, full.entries[j].1);
    FoundAt(m, full.entries, j);
  }

  /** One child of what is left, and of the whole, over the same lower layer. */
  lemma {:induction false} LeftChild(m: Markers, part: Upper, full: Upper, l: Option<Tree>, j: nat)
    requires part.UpperDir? && full.UpperDir? && Valid(full) && LeftOf(part, full)
    requires j < |full.entries| && Counts(m, full.entries, j)
    ensures var (n, v) := full.entries[j];
            && Valid(v) && Child(Merge(m, full, l), n) == Merge(m, v, Below(full, l, n))
            && match Find(m, part.entries, n)
               case Some(w) => LeftOf(w, v) && Child(Merge(m, part, l), n) == Merge(m, w, Below(full, l, n))
               case None => Child(Merge(m, part, l), n) == Below(full, l, n)
  {
    var (n, v) := full.entries[j];
    MergedEntry(m, full, l, j);
    FoundAt(m, full.entries, j);
    LeftIsValid(part, full);
    ChildOfMerge(m, part, l, n);
    if Find(m, part.entries, n).Some? {
      LeftEntry(m, part, full, n);
    }
  }

  lemma {:induction false} LeftElsewhere(m: Markers, part: Upper, full: Upper, l: Option<Tree>, n: Name)
    requires part.UpperDir? && full.UpperDir? && Valid(full) && LeftOf(part, full) && !HasEntry(m, full.entries, n)
    ensures Child(Merge(m, full, l), n) == Below(full, l, n) == Child(Merge(m, part, l), n)
  {
    UnnamedEntry(m, full, l, n);
    FindHas(m, full.entries, n);
    LeftIsValid(part, full);
    ChildOfMerge(m, part, l, n);
    if Find(m, part.entries, n).Some? {
      LeftEntry(m, part, full, n);
    }
  }

  /** What is left shows the same over l exactly when nothing that is lost changed anything. */
  lemma {:induction false} SameOverIff(m: Markers, part: Upper, full: Upper, l: Option<Tree>)
    requires Valid(full) && LeftOf(part, full)
    ensures Merge(m, part, l) == Merge(m, full, l) <==> SameOver(m, part, full, l)
    decreases full
  {
    if full.UpperDir? && part.UpperDir? {
      var es, seen, k := full.entries, Merge(m, full, l), Merge(m, part, l);
      forall j | 0 <= j < |es| && Counts(m, es, j)
        ensures var (n, v) := es[j];
                Child(k, n) == Child(seen, n) <==>
                match Find(m, part.entries, n)
                case Some(w) => SameOver(m, w, v, Below(full, l, n))
                case None => NoEffect(m, v, Below(full, l, n))
      {
        var (n, v) := es[j];
        LeftChild(m, part, full, l, j);
        if Find(m, part.entries, n).Some? {
          SameOverIff(m, Find(m, part.entries, n).value, v, Below(full, l, n));
        } else {
          NoEffectIff(m, v, Below(full, l, n));
        }
      }
      if SameOver(m, part, full, l) {
        forall n: Name
          ensures Child(k, n) == Child(seen, n)
        {
          if HasEntry(m, es, n) {
            var j :| 0 <= j < |es| && Counts(m, es, j) && es[j].0 == n;
          } else {
            LeftElsewhere(m, part, full, l, n);
          }
        }
        SameChildren(k.value, seen.value);
      }
    }
  }

  // ---------- what a write-back drops ----------

  lemma {:induction false} CountedByBoth(m: Markers, es: seq<(Name, Upper)>, n: Name)
    ensures HasEntry(Dropped, es, n) ==> HasEntry(m, es, n)
  {
    if HasEntry(Dropped, es, n) {
      var i :| 0 <= i < |es| && Counts(Dropped, es, i) && es[i].0 == n;
      assert Counts(m, es, i);
    }
  }

  lemma {:induction false} MarkerNotFound(es: seq<(Name, Upper)>, j: nat)
    requires DistinctNames(es) && j < |es| && !Counts(Dropped, es, j)
    ensures !HasEntry(Dropped, es, es[j].0)
  {
  }

  /** What writing u back over l leaves at one of its entries. */
  lemma {:induction false} WrittenEntry(u: Upper, l: Option<Tree>, j: nat)
    requires u.UpperDir? && Valid(u) && j < |u.entries|
    ensures var (n, v) := u.entries[j];
            Child(Merge(Dropped, u, l), n) == if IsIgnored(Dropped, n, v) then Below(u, l, n) else Merge(Dropped, v, Below(u, l, n))
  {
    if Counts(Dropped, u.entries, j) {
      MergedEntry(Dropped, u, l, j);
    } else {
      MarkerNotFound(u.entries, j);
      UnnamedEntry(Dropped, u, l, u.entries[j].0);
    }
  }

  lemma {:induction false} WrittenElsewhere(m: Markers, u: Upper, l: Option<Tree>, n: Name)
    requires u.UpperDir? && Valid(u) && !HasEntry(m, u.entries, n)
    ensures Child(Merge(Dropped, u, l), n) == Child(Merge(m, u, l), n) == Below(u, l, n)
  {
    CountedByBoth(m, u.entries, n);
    UnnamedEntry(m, u, l, n);
    UnnamedEntry(Dropped, u, l, n);
  }

  /** A write-back makes what the mount shows exactly when the markers it drops changed nothing. */
  lemma {:induction false} MarkersIdleIff(m: Markers, u: Upper, l: Option<Tree>)
    requires Valid(u)
    ensures Merge(Dropped, u, l) == Merge(m, u, l) <==> MarkersIdle(m, u, l)
    decreases u
  {
    if u.UpperDir? {
      var es, written, seen := u.entries, Merge(Dropped, u, l), Merge(m, u, l);
      forall i | 0 <= i < |es| && Counts(m, es, i)
        ensures var (n, v) := es[i];
                Child(written, n) == Child(seen, n) <==>
                if IsIgnored(Dropped, n, v) then NoEffect(m, v, Below(u, l, n)) else MarkersIdle(m, v, Below(u, l, n))
      {
        var (n, v) := es[i];
        WrittenEntry(u, l, i);
        MergedEntry(m, u, l, i);
        if IsIgnored(Dropped, n, v) {
          NoEffectIff(m, v, Below(u, l, n));
        } else {
          MarkersIdleIff(m, v, Below(u, l, n));
        }
      }
      if MarkersIdle(m, u, l) {
        forall n: Name
          ensures Child(written, n) == Child(seen, n)
        {
          if HasEntry(m, es, n) {
            var i :| 0 <= i < |es| && Counts(m, es, i) && es[i].0 == n;
          } else {
            WrittenElsewhere(m, u, l, n);
          }
        }
        SameChildren(written.value, seen.value);
      }
    }
  }

  /** One entry of what is left, over what was written back. */
  lemma {:induction false} LeftOverWritten(m: Markers, part: Upper, full: Upper, l: Option<Tree>, j: nat)
    requires part.UpperDir? && full.UpperDir? && !full.isOpaque && Valid(full) && LeftOf(part, full)
    requires j < |full.entries| && Counts(m, full.entries, j)
    ensures var (n, v) := full.entries[j];
            var written := if IsIgnored(Dropped, n, v) then Child(l, n) else Merge(Dropped, v, Child(l, n));
            && Valid(v) && Child(Merge(m, full, l), n) == Merge(m, v, Child(l, n))
            && match Find(m, part.entries, n)
               case Some(w) => LeftOf(w, v) && Child(Merge(m, part, Merge(Dropped, full, l)), n) == Merge(m, w, written)
               case None => Child(Merge(m, part, Merge(Dropped, full, l)), n) == written
  {
    var (n, v) := full.entries[j];
    WrittenEntry(full, l, j);
    MergedEntry(m, full, l, j);
    FoundAt(m, full.entries, j);
    LeftIsValid(part, full);
    ChildOfMerge(m, part, Merge(Dropped, full, l), n);
    if Find(m, part.entries, n).Some? {
      LeftEntry(m, part, full, n);
    }
  }

  /** After full has been written back, what is left of it shows what full did exactly under that
      condition. */
  lemma {:induction false} HidesNothingIff(m: Markers, part: Upper, full: Upper, l: Option<Tree>)
    requires Valid(full) && LeftOf(part, full)
    ensures Merge(m, part, Merge(Dropped, full, l)) == Merge(m, full, l) <==> HidesNothing(m, part, full, l)
    decreases full, 1
  {
    if full.UpperDir? && part.UpperDir? {
      var written, seen := Merge(Dropped, full, l), Merge(m, full, l);
      if full.isOpaque {
        OpaqueMerge(m, full, l);
        OpaqueMerge(m, part, written);
        SameOverIff(m, part, full, None);
      } else {
        var es, left := full.entries, Merge(m, part, written);
        forall j | 0 <= j < |es| && Counts(m, es, j)
          ensures var (n, v) := es[j];
                  Child(left, n) == Child(seen, n) <==>
                  match Find(m, part.entries, n)
                  case Some(w) => IsIgnored(Dropped, n, v) || HidesNothing(m, w, v, Child(l, n))
                  case None => if IsIgnored(Dropped, n, v) then NoEffect(m, v, Child(l, n)) else MarkersIdle(m, v, Child(l, n))
        {
          LeftEntryIff(m, part, full, l, j);
        }
        if HidesNothing(m, part, full, l) {
          forall n: Name
            ensures Child(left, n) == Child(seen, n)
          {
            if HasEntry(m, es, n) {
              var j :| 0 <= j < |es| && Counts(m, es, j) && es[j].0 == n;
            } else {
              LeftElsewhere(m, part, full, written, n);
              WrittenElsewhere(m, full, l, n);
            }
          }
          SameChildren(left.value, seen.value);
        }
      }
    }
  }

  lemma {:induction false} LeftEntryIff(m: Markers, part: Upper, full: Upper, l: Option<Tree>, j: nat)
    requires part.UpperDir? && full.UpperDir? && !full.isOpaque && Valid(full) && LeftOf(part, full)
    requires j < |full.entries| && Counts(m, full.entries, j)
    ensures var (n, v) := full.entries[j];
            Child(Merge(m, part, Merge(Dropped, full, l)), n) == Child(Merge(m, full, l), n) <==>
            match Find(m, part.entries, n)
            case Some(w) => IsIgnored(Dropped, n, v) || HidesNothing(m, w, v, Child(l, n))
            case None => if IsIgnored(Dropped, n, v) then NoEffect(m, v, Child(l, n)) else MarkersIdle(m, v, Child(l, n))
    decreases full, 0
  {
    var (n, v) := full.entries[j];
    LeftOverWritten(m, part, full, l, j);
    if Find(m, part.entries, n).Some? {
      if !IsIgnored(Dropped, n, v) {
        HidesNothingIff(m, Find(m, part.entries, n).value, v, Child(l, n));
      }
    } else if IsIgnored(Dropped, n, v) {
      NoEffectIff(m, v, Child(l, n));
    } else {
      MarkersIdleIff(m, v, Child(l, n));
    }
  }
}
