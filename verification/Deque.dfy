/** A deque with a maximum length, as the audit service uses it. */
module Deque {

  const BUFFER_CAP: nat := 1000

  /** Copies of x in s. */
  function Count<T(==)>(s: seq<T>, x: T): nat {
    if s == [] then 0 else (if s[0] == x then 1 else 0) + Count(s[1..], x)
  }

  lemma {:induction false} CountConcat<T>(a: seq<T>, b: seq<T>, x: T)
    ensures Count(a + b, x) == Count(a, x) + Count(b, x)
  {
    if a == [] {
      assert a + b == b;
    } else {
      assert (a + b)[1..] == a[1..] + b;
      CountConcat(a[1..], b, x);
    }
  }

  lemma {:induction false} CountPositive<T>(s: seq<T>, x: T)
    ensures Count(s, x) > 0 <==> x in s
  {
    if s != [] {
      CountPositive(s[1..], x);
    }
  }

  lemma CountTail<T>(s: seq<T>, x: T)
    requires s != []
    ensures Count(s, x) == Count([s[0]], x) + Count(s[1..], x)
  {
  }

  /** Appending drops from the left when full: the deque and what it dropped. */
  function Append<T>(buffer: seq<T>, x: T): (seq<T>, seq<T>) {
    if |buffer| < BUFFER_CAP then (buffer + [x], [])
    else (buffer[1..] + [x], [buffer[0]])
  }

  /** Appending one by one: the newest BUFFER_CAP items stay, the oldest go. */
  function AppendAll<T>(buffer: seq<T>, items: seq<T>): (seq<T>, seq<T>)
    decreases |items|
  {
    if items == [] then (buffer, [])
    else
      var (kept, dropped) := Append(buffer, items[0]);
      var (kept', dropped') := AppendAll(kept, items[1..]);
      (kept', dropped + dropped')
  }

  lemma {:induction false} AppendAllClosedForm<T>(buffer: seq<T>, items: seq<T>)
    requires |buffer| <= BUFFER_CAP
    ensures var (kept, dropped) := AppendAll(buffer, items);
            var all := buffer + items;
            var over := if |all| <= 1000 then 0 else |all| - 1000;
            kept == all[over..] && dropped == all[..over]
    decreases |items|
  {
    var all := buffer + items;
    if items == [] {
      assert all == buffer;
    } else {
      var (kept, dropped) := Append(buffer, items[0]);
      AppendAllClosedForm(kept, items[1..]);
      var rest := kept + items[1..];
      if |buffer| < BUFFER_CAP {
        assert rest == all;
      } else {
        assert rest == all[1..];
        assert dropped == all[..1];
      }
    }
  }

  lemma AppendCounts<T>(buffer: seq<T>, e: T, x: T)
    requires |buffer| <= BUFFER_CAP
    ensures var (kept, dropped) := Append(buffer, e);
            && |kept| <= BUFFER_CAP
            && Count(kept, x) + Count(dropped, x) == Count(buffer, x) + Count([e], x)
  {
    if |buffer| == BUFFER_CAP {
      CountTail(buffer, x);
      CountConcat(buffer[1..], [e], x);
    } else {
      CountConcat(buffer, [e], x);
    }
  }

  /** The requeue loop: items go back at the left, last one first, and each one
      that finds the deque full first drops the leftmost item. Yields the deque
      and the dropped items, latest drop first. */
  function Requeue<T>(buffer: seq<T>, items: seq<T>): (seq<T>, seq<T>)
    decreases |items|
  {
    if items == [] then (buffer, [])
    else
      var n := |items| - 1;
      var full := |buffer| >= BUFFER_CAP;
      var room := if full then buffer[1..] else buffer;
      var (kept, dropped) := Requeue([items[n]] + room, items[..n]);
      (kept, dropped + if full then [buffer[0]] else [])
  }

  /** The requeue loop in closed form. While everything fits, the items go back
      in front in their old order. Otherwise the very first item survives and
      the ones right behind it are dropped: the oldest is kept. */
  lemma {:induction false} RequeueClosedForm<T>(buffer: seq<T>, items: seq<T>)
    requires |buffer| <= BUFFER_CAP && items != []
    ensures var (kept, dropped) := Requeue(buffer, items);
            var all := items + buffer;
            var over := |all| - 1000;
            if over <= 0 then kept == all && dropped == []
            else kept == [all[0]] + all[over + 1..] && dropped == all[1..over + 1]
    decreases |items|
  {
    var n := |items| - 1;
    var all := items + buffer;
    var over := |all| - BUFFER_CAP;
    var full := |buffer| == BUFFER_CAP;
    var room := if full then buffer[1..] else buffer;
    var (kept, dropped) := Requeue([items[n]] + room, items[..n]);
    assert Requeue(buffer, items) == (kept, dropped + if full then [buffer[0]] else []);
    if n > 0 {
      RequeueClosedForm([items[n]] + room, items[..n]);
      RequeueInner(buffer, items);
    } else {
      assert kept == [items[n]] + room && dropped == [];
      RequeueSingle(buffer, items[0]);
      assert items == [items[0]];
    }
  }

  lemma RequeueSingle<T>(buffer: seq<T>, item: T)
    requires |buffer| <= BUFFER_CAP
    ensures var all := [item] + buffer;
            && all[0] == item
            && (|buffer| == BUFFER_CAP ==> all[1..2] == [buffer[0]] && all[2..] == buffer[1..])
  {
    var all := [item] + buffer;
    assert all[1..] == buffer;
    if |buffer| == BUFFER_CAP {
      assert all[1] == buffer[0];
    }
  }

  /** The sequence the rest of the requeue loop works on, against the whole. */
  lemma RequeueInner<T>(buffer: seq<T>, items: seq<T>)
    requires |buffer| <= BUFFER_CAP && |items| > 1
    ensures var n := |items| - 1;
            var all := items + buffer;
            if |buffer| < BUFFER_CAP then items[..n] + ([items[n]] + buffer) == all
            else
              var inner := items[..n] + ([items[n]] + buffer[1..]);
              && inner[0] == all[0]
              && inner[n + 1..] == all[n + 2..]
              && inner[1..n + 1] + [buffer[0]] == all[1..n + 2]
  {
    var n := |items| - 1;
    var all := items + buffer;
    if |buffer| < BUFFER_CAP {
      assert items[..n] + ([items[n]] + buffer) == all;
    } else {
      var inner := items[..n] + ([items[n]] + buffer[1..]);
      assert inner == items + buffer[1..];
      assert inner[n + 1..] == buffer[1..] == all[n + 2..];
      assert inner[1..n + 1] == items[1..];
    }
  }

  lemma {:induction false} RequeueCounts<T>(buffer: seq<T>, items: seq<T>, x: T)
    requires |buffer| <= BUFFER_CAP
    ensures var (kept, dropped) := Requeue(buffer, items);
            && |kept| <= BUFFER_CAP
            && Count(kept, x) + Count(dropped, x) == Count(items, x) + Count(buffer, x)
    decreases |items|
  {
    if items != [] {
      var n := |items| - 1;
      var full := |buffer| == BUFFER_CAP;
      var room := if full then buffer[1..] else buffer;
      var front, back := items[..n], [items[n]];
      RequeueCounts(back + room, front, x);
      assert items == front + back;
      CountConcat(front, back, x);
      CountConcat(back, room, x);
      CountConcat(Requeue(back + room, front).1, if full then [buffer[0]] else [], x);
      if full {
        CountTail(buffer, x);
      }
    }
  }

  /** Nothing appears in the deque that was not there or requeued. */
  lemma {:induction false} RequeueMembers<T>(buffer: seq<T>, items: seq<T>)
    ensures forall x :: x in Requeue(buffer, items).0 ==> x in buffer || x in items
    decreases |items|
  {
    if items != [] {
      var n := |items| - 1;
      var room := if |buffer| >= BUFFER_CAP then buffer[1..] else buffer;
      RequeueMembers([items[n]] + room, items[..n]);
    }
  }

  /** The loop itself, walking the items from the last to the first. */
  method RequeueLoop<T>(buffer: seq<T>, items: seq<T>) returns (kept: seq<T>, ghost dropped: seq<T>)
    requires |buffer| <= BUFFER_CAP
    ensures kept == Requeue(buffer, items).0 && dropped == Requeue(buffer, items).1
  {
    kept, dropped := buffer, [];
    var i := |items|;
    assert items[..i] == items;
    while i > 0
      invariant 0 <= i <= |items| && |kept| <= BUFFER_CAP
      invariant Requeue(kept, items[..i]).0 == Requeue(buffer, items).0
      invariant Requeue(kept, items[..i]).1 + dropped == Requeue(buffer, items).1
    {
      assert items[..i][..i - 1] == items[..i - 1];
      i := i - 1;
      if |kept| >= BUFFER_CAP {
        dropped := [kept[0]] + dropped;
        kept := kept[1..];
      }
      kept := [items[i]] + kept;
    }
    assert Requeue(kept, items[..0]) == (kept, []);
    assert [] + dropped == dropped;
  }
}
