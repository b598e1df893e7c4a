/**
 * The desktop's table of windows in RetroWindows7: an ordered list of
 * records {id, title, pos, zIndex} that the component replaces wholesale
 * on every change. Closing filters a record out; focusing lifts one
 * record above every other by giving it the current maximum zIndex plus one.
 */
module WindowTable {
  import opened Geometry

  /** One desktop window. The rendered content is presentation and is not kept. */
  datatype WindowRecord = WindowRecord(id: int, title: string, pos: Point, zIndex: int)

  /** The five windows the desktop starts with. */
  const InitialWindows: seq<WindowRecord> := [
    WindowRecord(1, "Document 1", Point(50, 50), 1),
    WindowRecord(2, "Image Viewer", Point(500, 50), 2),
    WindowRecord(3, "Calculator", Point(200, 200), 3),
    WindowRecord(4, "Music Player", Point(50, 350), 4),
    WindowRecord(5, "Email", Point(500, 350), 5)
  ]

  function Ids(ws: seq<WindowRecord>): seq<int> {
    seq(|ws|, i requires 0 <= i < |ws| => ws[i].id)
  }

  function Zs(ws: seq<WindowRecord>): seq<int> {
    seq(|ws|, i requires 0 <= i < |ws| => ws[i].zIndex)
  }

  /** No two windows share an id. */
  ghost predicate UniqueIds(ws: seq<WindowRecord>) {
    forall i, j :: 0 <= i < j < |ws| ==> ws[i].id != ws[j].id
  }

  /** No two windows share an id, and no two share a stacking level. */
  ghost predicate WellFormed(ws: seq<WindowRecord>) {
    forall i, j :: 0 <= i < j < |ws| ==> ws[i].id != ws[j].id && ws[i].zIndex != ws[j].zIndex
  }

  /** Every window with the given id is stacked above every window with another id. */
  ghost predicate Topmost(ws: seq<WindowRecord>, id: int) {
    forall i, j :: 0 <= i < |ws| && 0 <= j < |ws| && ws[i].id == id && ws[j].id != id ==>
      ws[j].zIndex < ws[i].zIndex
  }

  /** closeWindow: keep the windows whose id differs from `id`. */
  function Close(ws: seq<WindowRecord>, id: int): (r: seq<WindowRecord>)
    ensures |r| <= |ws|
    ensures forall w :: w in r <==> w in ws && w.id != id
  {
    if ws == [] then []
    else if ws[0].id == id then Close(ws[1..], id)
    else [ws[0]] + Close(ws[1..], id)
  }

  /** Math.max over the zIndex of every window of a non-empty list. */
  function MaxZ(ws: seq<WindowRecord>): (m: int)
    requires ws != []
    ensures forall w :: w in ws ==> w.zIndex <= m
    ensures exists w :: w in ws && w.zIndex == m
  {
    if |ws| == 1 then ws[0].zIndex
    else
      var rest := MaxZ(ws[1..]);
      if ws[0].zIndex >= rest then ws[0].zIndex else rest
  }

  /**
   * focusWindow: every record with the given id gets the maximum zIndex plus
   * one; the others are returned as they were. On an empty list the maximum
   * is -Infinity in the source, but the map then produces the empty list.
   */
  function Focus(ws: seq<WindowRecord>, id: int): (r: seq<WindowRecord>)
    ensures |r| == |ws|
    ensures forall i :: 0 <= i < |ws| ==>
      r[i].id == ws[i].id && r[i].title == ws[i].title && r[i].pos == ws[i].pos
    ensures forall i :: 0 <= i < |ws| && ws[i].id != id ==> r[i] == ws[i]
    ensures forall i :: 0 <= i < |ws| && ws[i].id == id ==>
      (forall w :: w in ws ==> w.zIndex < r[i].zIndex) &&
      (exists w :: w in ws && w.zIndex == r[i].zIndex - 1)
    ensures Topmost(r, id)
  {
    if ws == [] then []
    else
      var top := MaxZ(ws) + 1;
      seq(|ws|, i requires 0 <= i < |ws| => if ws[i].id == id then ws[i].(zIndex := top) else ws[i])
  }

  /** The initial desktop: ids 1..5, stacked 1..5, well formed. */
  lemma InitialWindowsShape()
    ensures Ids(InitialWindows) == [1, 2, 3, 4, 5]
    ensures Zs(InitialWindows) == [1, 2, 3, 4, 5]
    ensures WellFormed(InitialWindows)
  {
  }

  /** Closing distributes over concatenation, so it keeps the relative order of the survivors. */
  lemma {:induction false} CloseConcat(a: seq<WindowRecord>, b: seq<WindowRecord>, id: int)
    ensures Close(a + b, id) == Close(a, id) + Close(b, id)
  {
    if a == [] {
      assert a + b == b;
    } else {
      assert (a + b)[1..] == a[1..] + b;
      CloseConcat(a[1..], b, id);
    }
  }

  /** Closing an id no window carries changes nothing. */
  lemma {:induction false} CloseAbsent(ws: seq<WindowRecord>, id: int)
    requires forall w :: w in ws ==> w.id != id
    ensures Close(ws, id) == ws
  {
    if ws != [] {
      CloseAbsent(ws[1..], id);
      assert [ws[0]] + ws[1..] == ws;
    }
  }

  /** Closing the same window twice is the same as closing it once. */
  lemma CloseIdempotent(ws: seq<WindowRecord>, id: int)
    ensures Close(Close(ws, id), id) == Close(ws, id)
  {
  }

  /** On a list with unique ids, closing a present id removes exactly one window. */
  lemma {:induction false} CloseRemovesOne(ws: seq<WindowRecord>, id: int)
    requires UniqueIds(ws)
    requires id in Ids(ws)
    ensures |Close(ws, id)| == |ws| - 1
  {
    assert UniqueIds(ws[1..]) by {
      forall i, j | 0 <= i < j < |ws[1..]|
        ensures ws[1..][i].id != ws[1..][j].id
      {
        assert ws[1..][i] == ws[i + 1] && ws[1..][j] == ws[j + 1];
      }
    }
    if ws[0].id == id {
      forall w | w in ws[1..] ensures w.id != id {
        var k :| 0 <= k < |ws[1..]| && ws[1..][k] == w;
        assert ws[k + 1] == w;
      }
      CloseAbsent(ws[1..], id);
    } else {
      var k :| 0 <= k < |ws| && Ids(ws)[k] == id;
      assert Ids(ws[1..])[k - 1] == id;
      CloseRemovesOne(ws[1..], id);
    }
  }

  /** Closing keeps ids unique and stacking levels distinct. */
  lemma {:induction false} CloseWellFormed(ws: seq<WindowRecord>, id: int)
    requires WellFormed(ws)
    ensures WellFormed(Close(ws, id))
  {
    if ws != [] {
      var tail := ws[1..];
      assert WellFormed(tail) by {
        forall i, j | 0 <= i < j < |tail|
          ensures tail[i].id != tail[j].id && tail[i].zIndex != tail[j].zIndex
        {
          assert tail[i] == ws[i + 1] && tail[j] == ws[j + 1];
        }
      }
      CloseWellFormed(tail, id);
      var rest := Close(tail, id);
      if ws[0].id != id {
        var r := [ws[0]] + rest;
        forall j | 0 <= j < |rest|
          ensures ws[0].id != rest[j].id && ws[0].zIndex != rest[j].zIndex
        {
          assert rest[j] in tail;
          var k :| 0 <= k < |tail| && tail[k] == rest[j];
          assert ws[k + 1] == rest[j];
        }
        forall i, j | 0 <= i < j < |r|
          ensures r[i].id != r[j].id && r[i].zIndex != r[j].zIndex
        {
          assert r[j] == rest[j - 1];
          if i > 0 {
            assert r[i] == rest[i - 1];
          }
        }
      }
    }
  }

  /** Focusing an id no window carries changes nothing. */
  lemma FocusAbsent(ws: seq<WindowRecord>, id: int)
    requires forall w :: w in ws ==> w.id != id
    ensures Focus(ws, id) == ws
  {
  }

  /** Focusing keeps ids unique and stacking levels distinct. */
  lemma FocusWellFormed(ws: seq<WindowRecord>, id: int)
    requires WellFormed(ws)
    ensures WellFormed(Focus(ws, id))
  {
  }

  /** A window brought to the front stays in front while other windows are closed. */
  lemma TopmostSurvivesClose(ws: seq<WindowRecord>, id: int, closed: int)
    requires Topmost(ws, id)
    requires closed != id
    ensures Topmost(Close(ws, closed), id)
  {
  }

  /** Two sequences of length five are equal when they agree at every position. */
  lemma SameFiveElements(s: seq<int>, t: seq<int>)
    requires |s| == 5 && |t| == 5
    requires s[0] == t[0] && s[1] == t[1] && s[2] == t[2] && s[3] == t[3] && s[4] == t[4]
    ensures s == t
  {
  }

  /** Five windows stacked 1..5: focusing window 1 gives it 6 and leaves the rest at 2..5. */
  lemma FocusScenario()
    ensures Zs(Focus(InitialWindows, 1)) == [6, 2, 3, 4, 5]
    ensures Ids(Focus(InitialWindows, 1)) == [1, 2, 3, 4, 5]
  {
    var ws := InitialWindows;
    var r := Focus(ws, 1);
    assert MaxZ(ws) == 5 by {
      assert ws[4] in ws;
    }
    assert r[0].zIndex == 6;
    assert r[1] == ws[1] && r[2] == ws[2] && r[3] == ws[3] && r[4] == ws[4];
    SameFiveElements(Zs(r), [6, 2, 3, 4, 5]);
    SameFiveElements(Ids(r), [1, 2, 3, 4, 5]);
  }
}
