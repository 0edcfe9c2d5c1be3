/**
 * What the functions that specify the accounts-receivable grid mean: the client order lists
 * each client of the scanned rows once, in the order of first appearance; a cell holds the
 * balance of the last matching invoice; the loop fails at the first faulty row.
 */
module AccountsReceivableProperties {
  import opened Wrappers
  import opened Worksheet
  import opened AccountsReceivable

  /** No client gets two rows. */
  lemma {:induction false} ClientOrderDistinct(rows: seq<Invoice>)
    ensures forall i, j :: 0 <= i < j < |ClientOrder(rows)| ==> ClientOrder(rows)[i] != ClientOrder(rows)[j]
  {
    if rows != [] {
      var prev := ClientOrder(rows[..|rows| - 1]);
      ClientOrderDistinct(rows[..|rows| - 1]);
      var order := ClientOrder(rows);
      if order != prev {
        var client := rows[|rows| - 1].client.value;
        assert order == prev + [client] && client !in prev;
        forall i, j | 0 <= i < j < |order|
          ensures order[i] != order[j]
        {
          assert order[i] == prev[i];
          if j < |prev| {
            assert order[j] == prev[j];
          } else {
            assert order[j] == client;
            assert prev[i] in prev;
          }
        }
      }
    }
  }

  /** A client has a row exactly when some scanned row names it. */
  lemma {:induction false} ClientOrderMembership(rows: seq<Invoice>, client: string)
    ensures client in ClientOrder(rows) <==> exists i :: 0 <= i < |rows| && rows[i].client == Some(client)
  {
    if rows != [] {
      var prefix := rows[..|rows| - 1];
      ClientOrderMembership(prefix, client);
      if client in ClientOrder(prefix) {
        var i :| 0 <= i < |prefix| && prefix[i].client == Some(client);
        assert rows[i] == prefix[i];
      }
      if exists i :: 0 <= i < |rows| && rows[i].client == Some(client) {
        var i :| 0 <= i < |rows| && rows[i].client == Some(client);
        if i < |prefix| {
          assert prefix[i] == rows[i];
        }
      }
    }
  }

  /** Client k1 comes before client k2 only if every row of k2 has a row of k1 above it. */
  lemma {:induction false} ClientOrderFirstSeen(rows: seq<Invoice>, k1: int, k2: int, i: int)
    requires var order := ClientOrder(rows); 0 <= k1 < k2 < |order|
    requires 0 <= i < |rows| && rows[i].client == Some(ClientOrder(rows)[k2])
    ensures exists i' :: 0 <= i' < i && rows[i'].client == Some(ClientOrder(rows)[k1])
  {
    var prefix := rows[..|rows| - 1];
    var prev := ClientOrder(prefix);
    var order := ClientOrder(rows);
    assert order[..|prev|] == prev;
    if k2 < |prev| {
      if i < |prefix| {
        assert prefix[i] == rows[i];
        ClientOrderFirstSeen(prefix, k1, k2, i);
        var i' :| 0 <= i' < i && prefix[i'].client == Some(prev[k1]);
        assert rows[i'] == prefix[i'];
      } else {
        ClientOrderMembership(prefix, order[k2]);
        var j :| 0 <= j < |prefix| && prefix[j].client == Some(order[k2]);
        assert prefix[j] == rows[j];
        ClientOrderFirstSeen(prefix, k1, k2, j);
        var i' :| 0 <= i' < j && prefix[i'].client == Some(prev[k1]);
        assert rows[i'] == prefix[i'];
      }
    } else {
      // order[k2] is the client of the last row, new to the prefix, and order[k1] is in it.
      assert order == prev + [order[k2]];
      ClientOrderMembership(prefix, order[k2]);
      ClientOrderMembership(prefix, order[k1]);
      var i' :| 0 <= i' < |prefix| && prefix[i'].client == Some(order[k1]);
      assert rows[i'] == prefix[i'];
    }
  }

  /** LastBalance is empty when no row matches, and is otherwise the balance of the last match. */
  lemma {:induction false} LastBalanceIsLastMatch(rows: seq<Invoice>, client: string, month: Day, endOfMonth: Day -> Day)
    ensures LastBalance(rows, client, month, endOfMonth).None? <==>
            forall i :: 0 <= i < |rows| ==> !Matches(rows[i], client, month, endOfMonth)
    ensures LastBalance(rows, client, month, endOfMonth).Some? ==>
            exists i :: && 0 <= i < |rows| && Matches(rows[i], client, month, endOfMonth)
                        && rows[i].balance == LastBalance(rows, client, month, endOfMonth).value
                        && forall j :: i < j < |rows| ==> !Matches(rows[j], client, month, endOfMonth)
  {
    if rows != [] {
      var prefix := rows[..|rows| - 1];
      LastBalanceIsLastMatch(prefix, client, month, endOfMonth);
      if !Matches(rows[|rows| - 1], client, month, endOfMonth) {
        forall i | 0 <= i < |prefix|
          ensures rows[i] == prefix[i]
        {
        }
        if LastBalance(prefix, client, month, endOfMonth).Some? {
          var i :| && 0 <= i < |prefix| && Matches(prefix[i], client, month, endOfMonth)
                   && prefix[i].balance == LastBalance(prefix, client, month, endOfMonth).value
                   && forall j :: i < j < |prefix| ==> !Matches(prefix[j], client, month, endOfMonth);
          assert Matches(rows[i], client, month, endOfMonth);
        }
      }
    }
  }

  /** The loop fails exactly when some row is faulty, with the fault of the first such row. */
  lemma {:induction false} FirstFaultIsFirst(rows: seq<Invoice>, endOfMonth: Day -> Day, months: seq<Day>)
    ensures FirstFault(rows, endOfMonth, months).None? <==>
            forall i :: 0 <= i < |rows| ==> Fault(rows[i], endOfMonth, months).None?
    ensures FirstFault(rows, endOfMonth, months).Some? ==>
            exists i :: && 0 <= i < |rows| && Fault(rows[i], endOfMonth, months) == FirstFault(rows, endOfMonth, months)
                        && forall j :: 0 <= j < i ==> Fault(rows[j], endOfMonth, months).None?
  {
    if rows != [] {
      var prefix := rows[..|rows| - 1];
      FirstFaultIsFirst(prefix, endOfMonth, months);
      forall i | 0 <= i < |prefix|
        ensures rows[i] == prefix[i]
      {
      }
      if FirstFault(prefix, endOfMonth, months).Some? {
        var i :| && 0 <= i < |prefix| && Fault(prefix[i], endOfMonth, months) == FirstFault(prefix, endOfMonth, months)
                 && forall j :: 0 <= j < i ==> Fault(prefix[j], endOfMonth, months).None?;
        assert Fault(rows[i], endOfMonth, months) == FirstFault(rows, endOfMonth, months);
      }
    }
  }
}
