/** The sorted task queue: Python's `sorted` with a key is a stable sort, so
    it is modelled by an insertion sort that puts each task after every
    earlier task of the same or a smaller key. */
module TaskQueue {
  import opened TaskCalendar

  /** A task with its sort key, the instant its start time falls at today. */
  datatype Keyed = Keyed(key: int, task: TaskConfig)

  predicate SortedByKey(s: seq<Keyed>) {
    forall i, j :: 0 <= i < j < |s| ==> s[i].key <= s[j].key
  }

  /** Insert `x` into a sorted sequence after every element whose key is not
      larger than its own. */
  function Insert(x: Keyed, s: seq<Keyed>): seq<Keyed>
    decreases |s|
  {
    if s == [] || s[|s| - 1].key <= x.key then s + [x]
    else Insert(x, s[..|s| - 1]) + [s[|s| - 1]]
  }

  /** `sorted(s, key=...)`. */
  function Sort(s: seq<Keyed>): seq<Keyed>
    decreases |s|
  {
    if s == [] then [] else Insert(s[|s| - 1], Sort(s[..|s| - 1]))
  }

  /** The elements with key `k`, in order. */
  function WithKey(s: seq<Keyed>, k: int): seq<Keyed>
    decreases |s|
  {
    if s == [] then []
    else WithKey(s[..|s| - 1], k) + (if s[|s| - 1].key == k then [s[|s| - 1]] else [])
  }

  lemma {:induction false} InsertBound(x: Keyed, s: seq<Keyed>, b: int)
    requires forall i :: 0 <= i < |s| ==> s[i].key <= b
    requires x.key <= b
    ensures forall i :: 0 <= i < |Insert(x, s)| ==> Insert(x, s)[i].key <= b
    decreases |s|
  {
    if !(s == [] || s[|s| - 1].key <= x.key) {
      InsertBound(x, s[..|s| - 1], b);
    }
  }

  lemma {:induction false} InsertSorted(x: Keyed, s: seq<Keyed>)
    requires SortedByKey(s)
    ensures SortedByKey(Insert(x, s))
    decreases |s|
  {
    if !(s == [] || s[|s| - 1].key <= x.key) {
      var init, last := s[..|s| - 1], s[|s| - 1];
      InsertSorted(x, init);
      InsertBound(x, init, last.key);
    }
  }

  lemma {:induction false} InsertMultiset(x: Keyed, s: seq<Keyed>)
    ensures multiset(Insert(x, s)) == multiset(s) + multiset{x}
    decreases |s|
  {
    if !(s == [] || s[|s| - 1].key <= x.key) {
      var init, last := s[..|s| - 1], s[|s| - 1];
      InsertMultiset(x, init);
      assert s == init + [last];
    }
  }

  lemma {:induction false} InsertWithKey(x: Keyed, s: seq<Keyed>, k: int)
    ensures WithKey(Insert(x, s), k) == WithKey(s, k) + (if x.key == k then [x] else [])
    decreases |s|
  {
    var r := Insert(x, s);
    if s == [] || s[|s| - 1].key <= x.key {
      assert r[..|r| - 1] == s;
    } else {
      var init, last := s[..|s| - 1], s[|s| - 1];
      InsertWithKey(x, init, k);
      var mid := Insert(x, init);
      assert r[..|r| - 1] == mid;
    }
  }

  /** `sorted` returns the same tasks, in key order, and tasks with equal keys
      keep their original order. */
  lemma {:induction false} SortProps(s: seq<Keyed>)
    ensures SortedByKey(Sort(s))
    ensures multiset(Sort(s)) == multiset(s)
    ensures forall k :: WithKey(Sort(s), k) == WithKey(s, k)
    decreases |s|
  {
    if s != [] {
      var init, last := s[..|s| - 1], s[|s| - 1];
      SortProps(init);
      InsertSorted(last, Sort(init));
      InsertMultiset(last, Sort(init));
      forall k ensures WithKey(Sort(s), k) == WithKey(s, k) {
        InsertWithKey(last, Sort(init), k);
      }
      assert s == init + [last];
    }
  }

  /** The tasks of a keyed sequence, in order. */
  function Tasks(s: seq<Keyed>): (r: seq<TaskConfig>)
    ensures |r| == |s| && forall i :: 0 <= i < |s| ==> r[i] == s[i].task
    decreases |s|
  {
    if s == [] then [] else Tasks(s[..|s| - 1]) + [s[|s| - 1].task]
  }

  lemma TasksSnoc(s: seq<Keyed>, x: Keyed)
    ensures Tasks(s + [x]) == Tasks(s) + [x.task]
  {
    assert (s + [x])[..|s|] == s;
  }

  lemma {:induction false} InsertTasksMultiset(x: Keyed, s: seq<Keyed>)
    ensures multiset(Tasks(Insert(x, s))) == multiset(Tasks(s)) + multiset{x.task}
    decreases |s|
  {
    if s == [] || s[|s| - 1].key <= x.key {
      TasksSnoc(s, x);
    } else {
      var init, last := s[..|s| - 1], s[|s| - 1];
      var mid := Insert(x, init);
      InsertTasksMultiset(x, init);
      assert Insert(x, s) == mid + [last];
      TasksSnoc(mid, last);
      assert Tasks(s) == Tasks(init) + [last.task];
      calc {
        multiset(Tasks(Insert(x, s)));
        multiset(Tasks(mid) + [last.task]);
        multiset(Tasks(mid)) + multiset{last.task};
        multiset(Tasks(init)) + multiset{x.task} + multiset{last.task};
        multiset(Tasks(init) + [last.task]) + multiset{x.task};
      }
    }
  }

  lemma {:induction false} SortTasksMultiset(s: seq<Keyed>)
    ensures multiset(Tasks(Sort(s))) == multiset(Tasks(s))
    decreases |s|
  {
    if s != [] {
      var init, last := s[..|s| - 1], s[|s| - 1];
      SortTasksMultiset(init);
      InsertTasksMultiset(last, Sort(init));
      assert Sort(s) == Insert(last, Sort(init));
      assert Tasks(s) == Tasks(init) + [last.task];
      calc {
        multiset(Tasks(Sort(s)));
        multiset(Tasks(Sort(init))) + multiset{last.task};
        multiset(Tasks(init)) + multiset{last.task};
        multiset(Tasks(init) + [last.task]);
      }
    }
  }
}
