/** Deep merge of an overlay configuration into a base one (src/config.rs). The order of keys is not modelled. */
module OverlayMerge {
  import opened Wrappers

  /** A YAML value; anything that is not a mapping is replaced as a whole. */
  datatype Yaml = Scalar(text: string) | Sequence(items: seq<Yaml>) | Mapping(entries: map<Yaml, Yaml>)

  ghost function Merge(base: Yaml, overlay: Yaml): Yaml
    decreases overlay
  {
    if base.Mapping? && overlay.Mapping? then
      Mapping(map k | k in base.entries.Keys + overlay.entries.Keys ::
        if k !in overlay.entries then base.entries[k]
        else if k !in base.entries then overlay.entries[k]
        else Merge(base.entries[k], overlay.entries[k]))
    else overlay
  }

  lemma MergeKey(a: Yaml, b: Yaml, k: Yaml)
    requires a.Mapping? && b.Mapping?
    ensures k in Merge(a, b).entries <==> k in a.entries || k in b.entries
    ensures k in a.entries && k !in b.entries ==> Merge(a, b).entries[k] == a.entries[k]
    ensures k !in a.entries && k in b.entries ==> Merge(a, b).entries[k] == b.entries[k]
    ensures k in a.entries && k in b.entries ==> Merge(a, b).entries[k] == Merge(a.entries[k], b.entries[k])
  {
  }

  /** Takes the overlay's entries into the base one by one, merging below keys that both have. */
  method DeepMerge(base: Yaml, overlay: Yaml) returns (merged: Yaml)
    ensures merged == Merge(base, overlay)
    decreases overlay
  {
    if !base.Mapping? || !overlay.Mapping? {
      return overlay;
    }
    ghost var goal := Merge(base, overlay);
    var entries := base.entries;
    var todo := overlay.entries.Keys;
    while todo != {}
      invariant todo <= overlay.entries.Keys
      invariant forall k :: k in entries <==> k in base.entries || (k in overlay.entries && k !in todo)
      invariant forall k :: k in overlay.entries && k !in todo ==> k in goal.entries && entries[k] == goal.entries[k]
      invariant forall k :: k in base.entries && (k !in overlay.entries || k in todo) ==> entries[k] == base.entries[k]
      decreases |todo|
    {
      var key :| key in todo;
      var value := overlay.entries[key];
      MergeKey(base, overlay, key);
      if key in entries {
        value := DeepMerge(entries[key], value);
      }
      entries := entries[key := value];
      todo := todo - {key};
    }
    merged := Mapping(entries);
    assert entries == goal.entries by {
      assert entries.Keys == goal.entries.Keys;
    }
  }

  // ---- Paths ---------------------------------------------------------------

  type Path = seq<Yaml>

  ghost function At(y: Yaml, p: Path): Option<Yaml>
    decreases |p|
  {
    if |p| == 0 then Some(y)
    else if y.Mapping? && p[0] in y.entries then At(y.entries[p[0]], p[1..])
    else None
  }

  /** The overlay has something that is not a mapping above `p`. */
  ghost predicate Shadowed(overlay: Yaml, p: Path)
    decreases |p|
  {
    |p| > 0 && (!overlay.Mapping? || (p[0] in overlay.entries && Shadowed(overlay.entries[p[0]], p[1..])))
  }

  /**
   * What the merge has at every path: the overlay's value, merged into the base's where both have
   * one; below that, a base value survives exactly when the overlay does not shadow it.
   */
  lemma {:induction false} MergeAt(base: Yaml, overlay: Yaml, p: Path)
    ensures At(Merge(base, overlay), p) ==
      match (At(base, p), At(overlay, p))
      case (Some(b), Some(o)) => Some(Merge(b, o))
      case (_, Some(o)) => Some(o)
      case (b, None) => if Shadowed(overlay, p) then None else b
    decreases |p|
  {
    if |p| > 0 && base.Mapping? && overlay.Mapping? && p[0] in base.entries && p[0] in overlay.entries {
      MergeAt(base.entries[p[0]], overlay.entries[p[0]], p[1..]);
    }
  }

  /** Every leaf of the overlay is in the result at its path. */
  lemma OverlayLeavesWin(base: Yaml, overlay: Yaml, p: Path)
    requires At(overlay, p).Some? && !At(overlay, p).value.Mapping?
    ensures At(Merge(base, overlay), p) == At(overlay, p)
  {
    MergeAt(base, overlay, p);
  }

  /** A base value survives wherever the overlay says nothing, at the path or above it. */
  lemma BaseSurvives(base: Yaml, overlay: Yaml, p: Path)
    requires At(base, p).Some? && At(overlay, p).None?
    ensures At(Merge(base, overlay), p) == At(base, p) <==> !Shadowed(overlay, p)
  {
    MergeAt(base, overlay, p);
  }

  // ---- Algebra -------------------------------------------------------------

  lemma {:induction false} MergeIdempotent(a: Yaml)
    ensures Merge(a, a) == a
    decreases a
  {
    if a.Mapping? {
      forall k | k in a.entries ensures Merge(a.entries[k], a.entries[k]) == a.entries[k] {
        MergeIdempotent(a.entries[k]);
      }
      assert Merge(a, a).entries == a.entries;
    }
  }

  /** Applying an overlay a second time changes nothing. */
  lemma {:induction false} OverlayAppliesOnce(a: Yaml, b: Yaml)
    ensures Merge(Merge(a, b), b) == Merge(a, b)
    decreases b
  {
    if a.Mapping? && b.Mapping? {
      var m := Merge(a, b);
      forall k | k in b.entries ensures Merge(m.entries[k], b.entries[k]) == m.entries[k] {
        if k in a.entries {
          OverlayAppliesOnce(a.entries[k], b.entries[k]);
        } else {
          MergeIdempotent(b.entries[k]);
        }
      }
      assert Merge(m, b).entries == m.entries;
    } else {
      MergeIdempotent(b);
    }
  }

  /** `over` has every key that `under` has, wherever both have mappings. */
  ghost predicate Covers(over: Yaml, under: Yaml)
    decreases over
  {
    over.Mapping? && under.Mapping? ==>
      && under.entries.Keys <= over.entries.Keys
      && forall k :: k in over.entries && k in under.entries ==> Covers(over.entries[k], under.entries[k])
  }

  lemma {:induction false} CoversIffAbsorbs(under: Yaml, over: Yaml)
    ensures Merge(under, over) == over <==> Covers(over, under)
    decreases over
  {
    if over.Mapping? && under.Mapping? {
      var m := Merge(under, over);
      forall k | k in over.entries && k in under.entries
        ensures m.entries[k] == over.entries[k] <==> Covers(over.entries[k], under.entries[k])
      {
        CoversIffAbsorbs(under.entries[k], over.entries[k]);
      }
      assert m.entries.Keys == under.entries.Keys + over.entries.Keys;
      if Covers(over, under) {
        assert m.entries == over.entries;
      }
    }
  }

  /** A middle layer that is not a mapping at `p` hides base keys that the top layer does not have. */
  ghost predicate Hides(a: Yaml, b: Yaml, c: Yaml, p: Path) {
    && At(a, p).Some? && At(b, p).Some? && At(c, p).Some?
    && At(a, p).value.Mapping? && !At(b, p).value.Mapping? && At(c, p).value.Mapping?
    && !Covers(At(c, p).value, At(a, p).value)
  }

  /** Layering three files either way gives the same result if and only if the middle one hides nothing. */
  lemma {:induction false} AssociativeIffNothingHidden(a: Yaml, b: Yaml, c: Yaml)
    ensures Merge(Merge(a, b), c) == Merge(a, Merge(b, c)) <==> forall p :: !Hides(a, b, c, p)
    decreases b
  {
    if !a.Mapping? || !c.Mapping? {
      forall p ensures !Hides(a, b, c, p) {
      }
    } else if !b.Mapping? {
      CoversIffAbsorbs(a, c);
      assert At(a, []) == Some(a) && At(b, []) == Some(b) && At(c, []) == Some(c);
      if Covers(c, a) {
        assert forall p :: !Hides(a, b, c, p);
      } else {
        assert Hides(a, b, c, []);
      }
    } else {
      AssociativeBelow(a, b, c);
    }
  }

  lemma {:induction false} AssociativeBelow(a: Yaml, b: Yaml, c: Yaml)
    requires a.Mapping? && b.Mapping? && c.Mapping?
    ensures Merge(Merge(a, b), c) == Merge(a, Merge(b, c)) <==> forall p :: !Hides(a, b, c, p)
    decreases b, 0
  {
    var left, right := Merge(Merge(a, b), c), Merge(a, Merge(b, c));
    forall k | k in a.entries && k in b.entries && k in c.entries
      ensures left.entries[k] == right.entries[k] <==> forall q :: !Hides(a.entries[k], b.entries[k], c.entries[k], q)
    {
      AssociativeIffNothingHidden(a.entries[k], b.entries[k], c.entries[k]);
      MergeKey(a, b, k);
      MergeKey(b, c, k);
    }
    if p :| Hides(a, b, c, p) {
      var k := p[0];
      assert Hides(a.entries[k], b.entries[k], c.entries[k], p[1..]);
      assert left.entries[k] != right.entries[k];
    } else {
      forall k | k in left.entries ensures left.entries[k] == right.entries[k] {
        if k in a.entries && k in b.entries && k in c.entries {
          forall q ensures !Hides(a.entries[k], b.entries[k], c.entries[k], q) {
            assert !Hides(a, b, c, [k] + q);
            assert ([k] + q)[1..] == q;
          }
        }
      }
      assert left.entries == right.entries;
    }
  }
}
