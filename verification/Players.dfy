/** The table of players. */
module Players {
  import opened Bytes

  /** Text that can stand between two backslashes of a packet. */
  type Plain = t: Text | BACKSLASH !in t && NUL !in t witness []

  datatype Player = Player(id: nat, name: Plain, email: Plain, password: Text, country: Plain)

  /** Rows are numbered in the order of their creation, and numbers are never used twice. */
  datatype Table = Table(rows: seq<Player>, nextId: nat)

  const EMPTY := Table([], 2900001)

  function FindRow(rows: seq<Player>, name: Text): (row: Option<Player>)
    ensures row.Some? ==> row.value in rows && row.value.name == name
    ensures row.None? ==> forall r :: r in rows ==> r.name != name
  {
    if rows == [] then None
    else if rows[0].name == name then Some(rows[0])
    else FindRow(rows[1..], name)
  }

  function Inserted(t: Table, player: Player): Table {
    Table(t.rows + [player.(id := t.nextId)], t.nextId + 1)
  }

  /** Every row of that name gets the password, email and country of the player. */
  function Updated(t: Table, player: Player): Table {
    t.(rows := seq(|t.rows|, i requires 0 <= i < |t.rows| =>
      if t.rows[i].name == player.name
      then t.rows[i].(password := player.password, email := player.email, country := player.country)
      else t.rows[i]))
  }

  /** Equal but for the country. */
  predicate Same(a: Player, b: Player) {
    a.(country := b.country) == b
  }

  /** Names are unique, and numbers increase. */
  ghost predicate WellFormed(t: Table) {
    && (forall i, j :: 0 <= i < j < |t.rows| ==> t.rows[i].name != t.rows[j].name && t.rows[i].id < t.rows[j].id)
    && (forall i :: 0 <= i < |t.rows| ==> t.rows[i].id < t.nextId)
  }

  /** The player is the one that the table has under its name, but perhaps for the country. */
  predicate Knows(t: Table, player: Player) {
    var row := FindRow(t.rows, player.name);
    row.Some? && Same(row.value, player)
  }

  /** The row that holds a name is the one that is found. */
  lemma {:induction false} FindsRow(rows: seq<Player>, i: nat)
    requires i < |rows| && forall k :: 0 <= k < i ==> rows[k].name != rows[i].name
    ensures FindRow(rows, rows[i].name) == Some(rows[i])
  {
    if i > 0 {
      FindsRow(rows[1..], i - 1);
    }
  }

  lemma {:induction false} FindAppended(rows: seq<Player>, row: Player, name: Text)
    ensures FindRow(rows + [row], name)
         == if FindRow(rows, name).Some? then FindRow(rows, name) else if row.name == name then Some(row) else None
  {
    if rows == [] {
      assert rows + [row] == [row];
    } else {
      assert (rows + [row])[1..] == rows[1..] + [row];
      FindAppended(rows[1..], row, name);
    }
  }

  /** Updating finds the same rows, with new values where the name is the player's. */
  lemma {:induction false} FindUpdated(t: Table, player: Player, name: Text)
    ensures var before, after := FindRow(t.rows, name), FindRow(Updated(t, player).rows, name);
      after == if before.Some? && name == player.name
               then Some(before.value.(password := player.password, email := player.email, country := player.country))
               else before
    decreases |t.rows|
  {
    if t.rows != [] {
      var rest := t.(rows := t.rows[1..]);
      FindUpdated(rest, player, name);
      assert Updated(t, player).rows[1..] == Updated(rest, player).rows;
    }
  }

  /** A player with a new name gets a row of its own, and every other player keeps its row. */
  lemma InsertKeeps(t: Table, player: Player, other: Player)
    requires WellFormed(t) && FindRow(t.rows, player.name).None?
    ensures WellFormed(Inserted(t, player)) && Knows(Inserted(t, player), player.(id := t.nextId))
    ensures Knows(t, other) ==> Knows(Inserted(t, player), other)
  {
    hide FindRow;
    var row := player.(id := t.nextId);
    FindAppended(t.rows, row, player.name);
    FindAppended(t.rows, row, other.name);
    assert forall i :: 0 <= i < |t.rows| ==> t.rows[i] in t.rows;
  }

  /** An update by a player that the table knows changes nothing but the country of that player's row. */
  lemma UpdateKeeps(t: Table, player: Player, other: Player)
    requires WellFormed(t) && Knows(t, player)
    ensures var after := Updated(t, player);
      && WellFormed(after) && (Knows(t, other) <==> Knows(after, other))
      && FindRow(after.rows, player.name) == Some(player)
      && (forall i :: 0 <= i < |t.rows| ==> Same(after.rows[i], t.rows[i]))
      && (forall i :: 0 <= i < |t.rows| && t.rows[i].name != player.name ==> after.rows[i] == t.rows[i])
  {
    hide FindRow;
    FindUpdated(t, player, player.name);
    FindUpdated(t, player, other.name);
    forall i | 0 <= i < |t.rows| && t.rows[i].name == player.name ensures Same(t.rows[i], player) {
      FindsRow(t.rows, i);
    }
  }

  class PlayerTable {
    var rows: seq<Player>
    var nextId: nat

    constructor ()
      ensures Current() == EMPTY
    {
      rows, nextId := [], EMPTY.nextId;
    }

    function Current(): Table
      reads this
    {
      Table(rows, nextId)
    }

    /** `SELECT COUNT(*) ... WHERE name=?`, compared with zero. */
    method HasPlayer(name: Text) returns (found: bool)
      ensures found <==> exists r :: r in rows && r.name == name
    {
      var count := 0;
      for i := 0 to |rows|
        invariant count > 0 <==> exists k :: 0 <= k < i && rows[k].name == name
      {
        if rows[i].name == name {
          count := count + 1;
        }
      }
      found := count > 0;
    }

    /** The first row that `SELECT ... WHERE name=?` steps to. */
    method GetPlayerByName(name: Text) returns (player: Option<Player>)
      ensures player.Some? ==>
        && player.value.name == name
        && exists i :: 0 <= i < |rows| && rows[i] == player.value && forall k :: 0 <= k < i ==> rows[k].name != name
      ensures player.None? ==> forall r :: r in rows ==> r.name != name
      ensures player == FindRow(rows, name)
    {
      for i := 0 to |rows|
        invariant forall k :: 0 <= k < i ==> rows[k].name != name
      {
        if rows[i].name == name {
          FindsRow(rows, i);
          return Some(rows[i]);
        }
      }
      player := None;
    }

    /** The new number; none if the table refuses a second row of that name. */
    method CreatePlayer(player: Player) returns (id: Option<nat>)
      modifies this
      ensures id.None? <==> exists r :: r in old(rows) && r.name == player.name
      ensures id.Some? ==> id.value == old(nextId)
      ensures Current() == if id.Some? then Inserted(old(Current()), player) else old(Current())
    {
      var taken := HasPlayer(player.name);
      if taken {
        return None;
      }
      id := Some(nextId);
      rows := rows + [player.(id := nextId)];
      nextId := nextId + 1;
    }

    /** Every row of that name gets the three fields, every other row stays as it is. */
    method UpdatePlayer(player: Player)
      modifies this`rows
      ensures |rows| == |old(rows)|
      ensures forall i :: 0 <= i < |rows| ==>
        if old(rows)[i].name != player.name then rows[i] == old(rows)[i]
        else rows[i] == Player(old(rows)[i].id, player.name, player.email, player.password, player.country)
      ensures Current() == Updated(old(Current()), player)
    {
      for i := 0 to |rows|
        invariant |rows| == |old(rows)|
        invariant forall k :: 0 <= k < i ==>
          if old(rows)[k].name != player.name then rows[k] == old(rows)[k]
          else rows[k] == Player(old(rows)[k].id, player.name, player.email, player.password, player.country)
        invariant forall k :: i <= k < |rows| ==> rows[k] == old(rows)[k]
      {
        if rows[i].name == player.name {
          rows := rows[i := rows[i].(password := player.password, email := player.email, country := player.country)];
        }
      }
      assert rows == Updated(old(Current()), player).rows;
    }
  }
}
