/** Words in dictionary order, by code point. */
module Words {

  predicate Less(a: string, b: string) {
    b != "" && (a == "" || a[0] < b[0] || (a[0] == b[0] && Less(a[1..], b[1..])))
  }

  /** The words agree up to `i`, where the first ends or has the smaller letter. */
  ghost predicate DiffersAt(a: string, b: string, i: nat) {
    i <= |a| && i < |b| && a[..i] == b[..i] && (i == |a| || a[i] < b[i])
  }

  lemma {:induction false} LessIff(a: string, b: string)
    ensures Less(a, b) <==> exists i :: DiffersAt(a, b, i)
  {
    if b == "" {
    } else if a == "" || a[0] < b[0] {
      assert DiffersAt(a, b, 0);
    } else if a[0] == b[0] {
      LessIff(a[1..], b[1..]);
      if i: nat :| DiffersAt(a[1..], b[1..], i) {
        assert a[..i + 1] == [a[0]] + a[1..][..i] && b[..i + 1] == [b[0]] + b[1..][..i];
        assert DiffersAt(a, b, i + 1);
      }
      if i: nat :| DiffersAt(a, b, i) {
        assert a[..i][1..] == a[1..][..i - 1] && b[..i][1..] == b[1..][..i - 1];
        assert DiffersAt(a[1..], b[1..], i - 1);
      }
    } else {
      forall i: nat ensures !DiffersAt(a, b, i) {
        assert i > 0 && i <= |a| && i < |b| ==> a[..i][0] != b[..i][0];
      }
    }
  }

  lemma {:induction false} LessTotal(a: string, b: string)
    ensures a == b || Less(a, b) || Less(b, a)
  {
    if a != "" && b != "" && a[0] == b[0] {
      LessTotal(a[1..], b[1..]);
      assert a == [a[0]] + a[1..] && b == [b[0]] + b[1..];
    }
  }

  lemma {:induction false} LessTransitive(a: string, b: string, c: string)
    requires Less(a, b) && Less(b, c)
    ensures Less(a, c)
  {
    if a != "" && a[0] == b[0] && b[0] == c[0] {
      LessTransitive(a[1..], b[1..], c[1..]);
    }
  }

  ghost predicate Ordered(ws: seq<string>) {
    forall i, j :: 0 <= i < j < |ws| ==> Less(ws[i], ws[j])
  }

  lemma OrderedPrepend(w: string, ws: seq<string>)
    requires Ordered(ws) && (ws != [] ==> Less(w, ws[0]))
    ensures Ordered([w] + ws)
  {
    var xs := [w] + ws;
    forall i, j | 0 <= i < j < |xs| ensures Less(xs[i], xs[j]) {
      if i == 0 && j > 1 {
        LessTransitive(w, ws[0], ws[j - 1]);
      }
    }
  }

  /** The word in its place, once. */
  function Insert(w: string, ws: seq<string>): (r: seq<string>)
    requires Ordered(ws)
    ensures Ordered(r) && r != [] && (r[0] == w || (ws != [] && r[0] == ws[0]))
    ensures forall x :: x in r <==> x == w || x in ws
  {
    if ws == [] then [w]
    else if w == ws[0] then ws
    else if Less(w, ws[0]) then
      OrderedPrepend(w, ws);
      [w] + ws
    else
      LessTotal(w, ws[0]);
      var rest := Insert(w, ws[1..]);
      assert rest[0] == w || rest[0] == ws[1];
      OrderedPrepend(ws[0], rest);
      [ws[0]] + rest
  }
}
