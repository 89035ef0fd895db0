/**
 * Per-user presence colours.  The stores and the app context hand each
 * newly seen user the next colour of a fixed palette, round robin; the
 * cursor context draws a random palette colour instead.  Either way a colour,
 * once given, is kept for the rest of the session.
 */
module Colors {

  /** `ALL_COLORS` of app-store.tsx:26-35 and `allColors` of app-context.tsx:24-33. */
  const STORE_PALETTE: seq<string> :=
    ["#D14D41", "#DA702C", "#D0A215", "#879A39", "#3AA99F", "#4385BE", "#8B7EC8", "#CE5D97"]

  /** `ALL_COLORS` of app-store.ts:15-24: the same colours in another order. */
  const SLICE_PALETTE: seq<string> :=
    ["#DA702C", "#D0A215", "#879A39", "#3AA99F", "#4385BE", "#D14D41", "#8B7EC8", "#CE5D97"]

  /** Both palettes have eight colours. */
  const PALETTE_SIZE: nat := 8

  /** The palette slot handed to the k-th distinct user (counting from 1). */
  function SlotOf(k: nat): (slot: nat)
    ensures slot < PALETTE_SIZE
  {
    k % PALETTE_SIZE
  }

  /** Eight users in a row get eight different slots, and the ninth repeats the first. */
  lemma SlotsCycle(k: nat, d: nat)
    requires 0 < d < PALETTE_SIZE
    ensures SlotOf(k + d) != SlotOf(k)
    ensures SlotOf(k + PALETTE_SIZE) == SlotOf(k)
  {
  }

  /** Each user of `order` holds the palette slot of their arrival. */
  ghost predicate RoundRobin(palette: seq<string>, order: seq<string>, colorMap: map<string, string>) {
    && |palette| == PALETTE_SIZE
    && (forall i, j :: 0 <= i < j < |order| ==> order[i] != order[j])
    && (forall u :: u in colorMap <==> u in order)
    && (forall k :: 0 <= k < |order| ==> colorMap[order[k]] == palette[SlotOf(k + 1)])
  }

  /** Giving a new user the next slot keeps every earlier user's slot. */
  lemma RoundRobinExtends(palette: seq<string>, order: seq<string>, colorMap: map<string, string>,
                          user: string, color: string)
    requires RoundRobin(palette, order, colorMap) && user !in colorMap
    requires color == palette[SlotOf(|order| + 1)]
    ensures RoundRobin(palette, order + [user], colorMap[user := color])
  {
    var order' := order + [user];
    forall k | 0 <= k < |order'|
      ensures colorMap[user := color][order'[k]] == palette[SlotOf(k + 1)]
    {
      if k < |order| {
        assert order'[k] == order[k] && order[k] != user;
      }
    }
  }

  /** A round-robin colour map is determined by the arrival order. */
  lemma RoundRobinDetermined(palette: seq<string>, order: seq<string>, m1: map<string, string>, m2: map<string, string>)
    requires RoundRobin(palette, order, m1) && RoundRobin(palette, order, m2)
    ensures m1 == m2
  {
    forall u | u in m1
      ensures m1[u] == m2[u]
    {
      var k :| 0 <= k < |order| && order[k] == u;
    }
  }

  /**
   * With a palette of distinct colours, the users who arrive within eight
   * of each other get different colours, and the user who arrives eight
   * later gets the same colour.
   */
  lemma RoundRobinCycle(palette: seq<string>, order: seq<string>, colorMap: map<string, string>, k: nat, d: nat)
    requires RoundRobin(palette, order, colorMap)
    requires forall i, j :: 0 <= i < j < |palette| ==> palette[i] != palette[j]
    requires 0 < d <= PALETTE_SIZE && k + d < |order|
    ensures d < PALETTE_SIZE ==> colorMap[order[k]] != colorMap[order[k + d]]
    ensures d == PALETTE_SIZE ==> colorMap[order[k]] == colorMap[order[k + d]]
  {
    if d < PALETTE_SIZE {
      SlotsCycle(k + 1, d);
    } else {
      SlotsCycle(k + 1, 1);
    }
  }

  /** Each palette holds eight different colours. */
  lemma PalettesDistinct()
    ensures forall i, j :: 0 <= i < j < |STORE_PALETTE| ==> STORE_PALETTE[i] != STORE_PALETTE[j]
    ensures forall i, j :: 0 <= i < j < |SLICE_PALETTE| ==> SLICE_PALETTE[i] != SLICE_PALETTE[j]
  {
  }

  /**
   * The users of `users` that are not in `known`, each once, in the order
   * of their first appearance: the users a run of `getUserColor` calls
   * adds to the colour map.
   */
  function FirstSeen(users: seq<string>, known: seq<string>): (added: seq<string>)
    ensures forall u :: u in added ==> u in users && u !in known
    ensures forall u :: u in users ==> u in known || u in added
    ensures forall i, j :: 0 <= i < j < |added| ==> added[i] != added[j]
  {
    if users == [] then []
    else
      var prev := FirstSeen(users[..|users| - 1], known);
      var u := users[|users| - 1];
      assert forall v :: v in users ==> v in users[..|users| - 1] || v == u by {
        assert users == users[..|users| - 1] + [u];
      }
      if u in known || u in prev then prev else prev + [u]
  }

  /** The memoised round-robin allocator (`colorMap` and `colorIndex`). */
  class ColorAllocator {
    const palette: seq<string>
    var colorIndex: nat
    var colorMap: map<string, string>
    /** The users in the order they were first given a colour. */
    ghost var order: seq<string>

    ghost predicate Valid()
      reads this
    {
      && colorIndex == SlotOf(|order|)
      && RoundRobin(palette, order, colorMap)
    }

    constructor (palette: seq<string>)
      requires |palette| == PALETTE_SIZE
      ensures Valid() && this.palette == palette && colorMap == map[] && order == []
    {
      this.palette := palette;
      colorIndex := 0;
      colorMap := map[];
      order := [];
    }

    /** `getNextUserColor`: pre-increment the index, wrapping to 0 at the end of the palette. */
    method NextColor() returns (color: string)
      requires |palette| == PALETTE_SIZE && colorIndex < |palette|
      modifies this`colorIndex
      ensures colorIndex == SlotOf(old(colorIndex) + 1)
      ensures color == palette[colorIndex]
    {
      colorIndex := colorIndex + 1;
      if colorIndex >= |palette| {
        colorIndex := 0;
      }
      color := palette[colorIndex];
    }

    /**
     * `getUserColor`: a known user keeps its colour; a new one is the
     * (|order| + 1)-th distinct user and gets that palette slot.
     */
    method GetUserColor(user: string) returns (color: string)
      requires Valid()
      modifies this
      ensures Valid()
      ensures user in colorMap && colorMap[user] == color
      ensures user in old(colorMap) ==> color == old(colorMap[user]) && colorMap == old(colorMap) && order == old(order)
      ensures user !in old(colorMap) ==>
        && color == palette[SlotOf(|old(order)| + 1)]
        && colorMap == old(colorMap)[user := color]
        && order == old(order) + [user]
    {
      if user !in colorMap {
        var next := NextColor();
        RoundRobinExtends(palette, order, colorMap, user, next);
        colorMap := colorMap[user := next];
        order := order + [user];
      }
      color := colorMap[user];
    }
  }

  /** The cursor context's memo: a random palette colour on first sight (cursors-context.tsx:77-82). */
  class RandomColorMemo {
    const palette: seq<string>
    var colorMap: map<string, string>

    ghost predicate Valid()
      reads this
    {
      |palette| > 0 && forall u :: u in colorMap ==> colorMap[u] in palette
    }

    constructor (palette: seq<string>)
      requires |palette| > 0
      ensures Valid() && this.palette == palette && colorMap == map[]
    {
      this.palette := palette;
      colorMap := map[];
    }

    /** The random draw is left open: any palette slot may be chosen. */
    method ColorOf(user: string) returns (color: string)
      requires Valid()
      modifies this
      ensures Valid()
      ensures color in palette && user in colorMap && colorMap[user] == color
      ensures user in old(colorMap) ==> color == old(colorMap[user]) && colorMap == old(colorMap)
      ensures user !in old(colorMap) ==> colorMap == old(colorMap)[user := color]
    {
      if user !in colorMap {
        var slot :| 0 <= slot < |palette|;
        colorMap := colorMap[user := palette[slot]];
      }
      color := colorMap[user];
    }
  }
}
