/** The half-open window of `diagnostics/analysis/src/analysis/windows.py`; its constructor
    refuses an interval that does not run forwards. */
module Windows {

  datatype Interval = Interval(fromTs: int, toTs: int) {
    predicate Contains(moment: int) {
      fromTs <= moment < toTs
    }

    function Duration(): int {
      toTs - fromTs
    }

    function Instants(): set<int> {
      set t | fromTs <= t < toTs && Contains(t)
    }
  }

  type Window = w: Interval | w.fromTs < w.toTs witness Interval(0, 1)

  lemma InstantsAre(i: Interval, t: int)
    ensures t in i.Instants() <==> i.Contains(t)
  {
  }

  lemma OneMoreInstant(i: Interval)
    requires i.fromTs < i.toTs
    ensures i.toTs - 1 !in Interval(i.fromTs, i.toTs - 1).Instants()
    ensures i.Instants() == Interval(i.fromTs, i.toTs - 1).Instants() + {i.toTs - 1}
  {
    hide Interval.Instants;
    var shorter := Interval(i.fromTs, i.toTs - 1);
    InstantsAre(shorter, i.toTs - 1);
    forall t ensures t in i.Instants() <==> t in shorter.Instants() + {i.toTs - 1} {
      InstantsAre(i, t);
      InstantsAre(shorter, t);
    }
  }

  lemma {:induction false} InstantsCount(i: Interval)
    requires i.fromTs <= i.toTs
    ensures |i.Instants()| == i.Duration()
    decreases i.toTs - i.fromTs
  {
    hide Interval.Instants;
    if i.fromTs < i.toTs {
      InstantsCount(Interval(i.fromTs, i.toTs - 1));
      OneMoreInstant(i);
    } else {
      forall t ensures t !in i.Instants() {
        InstantsAre(i, t);
      }
      assert i.Instants() == {};
    }
  }
}
