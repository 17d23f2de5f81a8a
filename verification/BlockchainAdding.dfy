/** What saving a header and forking mean for the fields, the files and the dictionary. */
module BlockchainAdding {
  import opened Options
  import opened Folding
  import opened Headers
  import opened ForkTrees
  import opened ForkTreeSwap
  import opened ForkTreeRuns
  import opened ForkTreeSteps
  import opened ForkTreeOrder
  import opened BlockchainRows

  // ----- a header at the tip

  ghost function GrownRows(rows: Rows, c: Blockchain): (r: Rows)
    requires c in rows
    ensures r.Keys == rows.Keys
  {
    rows[c := rows[c].(size := rows[c].size + 1)]
  }

  ghost function GrownFiles(rows: Rows, files: Files, c: Blockchain, h: Header): Files
    requires c in rows && rows[c].Path() in files
  {
    files[rows[c].Path() := files[rows[c].Path()] + [h]]
  }

  lemma FirstHeader(rows: Rows, files: Files, c: Blockchain, row: Row, h: Header)
    requires row.size == 1
    ensures GrownRows(rows[c := row.(size := 0)], c) == rows[c := row]
    ensures GrownFiles(rows[c := row.(size := 0)], files[row.Path() := []], c, h) == files[row.Path() := [h]]
  {
    var rows', files' := rows[c := row.(size := 0)], files[row.Path() := []];
    assert rows'[c].Path() == row.Path() && files'[row.Path()] + [h] == [h];
    assert GrownRows(rows', c) == rows[c := row];
    assert GrownFiles(rows', files', c, h) == files[row.Path() := [h]];
  }

  lemma GrownNode(net: Net, rows: Rows, files: Files, root: Blockchain, c: Blockchain, h: Header, x: Blockchain)
    requires AllLinked(rows, files) && TreeOk(net, TreeOf(rows, files), root) && c in rows && x in rows
    ensures rows[c].Path() in files
    ensures Linked(GrownRows(rows, c)[x], GrownFiles(rows, files, c, h))
    ensures NodeOf(GrownRows(rows, c)[x], GrownFiles(rows, files, c, h)) == Grow(TreeOf(rows, files), c, h)[x]
  {
    assert Linked(rows[c], files) && Linked(rows[x], files);
    if x != c {
      PathsApart(rows, files, root, x, c);
    }
  }

  lemma GrownTree(net: Net, rows: Rows, files: Files, root: Blockchain, c: Blockchain, h: Header)
    requires AllLinked(rows, files) && TreeOk(net, TreeOf(rows, files), root) && c in rows
    ensures rows[c].Path() in files && AllLinked(GrownRows(rows, c), GrownFiles(rows, files, c, h))
    ensures TreeOf(GrownRows(rows, c), GrownFiles(rows, files, c, h)) == Grow(TreeOf(rows, files), c, h)
  {
    var t' := TreeOf(GrownRows(rows, c), GrownFiles(rows, files, c, h));
    assert Linked(rows[c], files);
    forall x | x in rows
      ensures Linked(GrownRows(rows, c)[x], GrownFiles(rows, files, c, h)) &&
              t'[x] == Grow(TreeOf(rows, files), c, h)[x]
    {
      GrownNode(net, rows, files, root, c, h, x);
    }
  }

  lemma GrownExact(rows: Rows, files: Files, c: Blockchain, h: Header)
    requires FilesExact(rows, files) && c in rows && rows[c].Path() in files
    ensures FilesExact(GrownRows(rows, c), GrownFiles(rows, files, c, h))
  {
    forall q
      ensures q in GrownFiles(rows, files, c, h) <==>
              exists x :: x in GrownRows(rows, c) && GrownRows(rows, c)[x].Path() == q
    {
      if q in files {
        var x: Blockchain :| x in rows && rows[x].Path() == q;
        assert GrownRows(rows, c)[x].Path() == q;
      }
    }
  }

  lemma GrownInner(net: Net, rows: Rows, files: Files, chains: map<Hash, Blockchain>, known: set<Blockchain>, s: Forest,
                   c: Blockchain, h: Header)
    requires InnerOk(net, rows, files, chains, s.root, known).holds && s.tree == TreeOf(rows, files)
    requires Ok(net, s).holds && CanSave(net, s.tree, c, h).holds
    ensures c in rows && rows[c].Path() in files
    ensures InnerOk(net, GrownRows(rows, c), GrownFiles(rows, files, c, h), chains, s.root, known).holds
    ensures Forest(TreeOf(GrownRows(rows, c), GrownFiles(rows, files, c, h)), s.root) == Saved(net, s, c, h)
  {
    hide FilesExact, AllLinked, TreeOk, Content, Registered, Follows, IsUnknown, Shaped;
    assert Unfold(0);
    assert TreeOf(rows, files).Keys == rows.Keys;
    GrownTree(net, rows, files, s.root, c, h);
    GrownExact(rows, files, c, h);
    GrownRegister(chains, rows, known, c);
    InnerFrom(net, GrownRows(rows, c), GrownFiles(rows, files, c, h), chains, known, Saved(net, s, c, h));
  }

  /** Saving the header is possible; it leads to `s1`, and swapping from there to `s2`. */
  lemma SaveStarts(net: Net, rows: Rows, files: Files, chains: map<Hash, Blockchain>, s: Forest, c: Blockchain,
                   h: Header,
                   order: Order)
    returns (s1: Forest)
    requires InnerOk(net, rows, files, chains, s.root, rows.Keys).holds && s.tree == TreeOf(rows, files)
    requires Settled(net, s).holds && CanSave(net, s.tree, c, h).holds
    ensures c in rows && rows[c].Path() in files && rows[c].size == |files[rows[c].Path()]|
    ensures c in s.tree && rows[c].forkpoint + rows[c].size == s.tree[c].Count()
    ensures InnerOk(net, GrownRows(rows, c), GrownFiles(rows, files, c, h), chains, s.root, rows.Keys).holds
    ensures Forest(TreeOf(GrownRows(rows, c), GrownFiles(rows, files, c, h)), s.root) == s1
    ensures StepIs(net, s, SaveHeader(c, h), Settling(net, s1, c)).holds
    ensures StepOrderIs(net, s, SaveHeader(c, h), order, SettlingOrder(net, s1, c, order)).holds
  {
    SaveOrder(net, s, c, h, order);
    s1 := Saved(net, s, c, h);
    GrownInner(net, rows, files, chains, rows.Keys, s, c, h);
    SizesKnown(net, rows, files, chains, s.root, rows.Keys, c);
    SaveSettles(net, s, c, h);
  }

  lemma SaveSettles(net: Net, s: Forest, c: Blockchain, h: Header)
    requires Settled(net, s).holds && CanSave(net, s.tree, c, h).holds
    ensures StepIs(net, s, SaveHeader(c, h), Settling(net, Saved(net, s, c, h), c)).holds
  {
    StepSettles(net, s, SaveHeader(c, h));
  }

  lemma SizesKnown(net: Net, rows: Rows, files: Files, chains: map<Hash, Blockchain>, root: Blockchain,
                   known: set<Blockchain>, c: Blockchain)
    requires InnerOk(net, rows, files, chains, root, known).holds && c in rows
    ensures rows[c].Path() in files && rows[c].size == |files[rows[c].Path()]|
    ensures rows[c].forkpoint + rows[c].size == TreeOf(rows, files)[c].Count()
  {
    assert Unfold(0);
    assert Linked(rows[c], files);
  }

  lemma GrownRegister(chains: map<Hash, Blockchain>, rows: Rows, known: set<Blockchain>, c: Blockchain)
    requires Registered(chains, rows, known) && c in rows
    ensures Registered(chains, GrownRows(rows, c), known)
  {
  }

  lemma InnerFrom(net: Net, rows: Rows, files: Files, chains: map<Hash, Blockchain>, known: set<Blockchain>, s: Forest)
    requires AllLinked(rows, files) && FilesExact(rows, files) && Registered(chains, rows, known)
    requires Ok(net, s).holds && s.tree == TreeOf(rows, files)
    ensures InnerOk(net, rows, files, chains, s.root, known).holds
  {
    assert Unfold(0);
  }

  // ----- a new chain

  ghost function ForkRow(p: Blockchain, height: nat, h: Header): Row {
    Row(height, Some(p), HashOf(h), Some(h.prev), 1)
  }

  lemma ForkedNode(net: Net, rows: Rows, files: Files, p: Blockchain, c: Blockchain, height: nat, h: Header,
                   x: Blockchain)
    requires AllLinked(rows, files) && p in rows && c !in rows && IsUnknown(TreeOf(rows, files), h) &&
             (x in rows || x == c)
    ensures var row := ForkRow(p, height, h);
            && (forall y :: y in rows ==> rows[y].Path() != row.Path())
            && Linked(rows[c := row][x], files[row.Path() := [h]])
            && NodeOf(rows[c := row][x], files[row.Path() := [h]]) == Fork(TreeOf(rows, files), c, p, height, h)[x]
  {
    var row := ForkRow(p, height, h);
    forall y | y in rows
      ensures rows[y].Path() != row.Path() && rows[y].id != row.id
    {
      assert Linked(rows[y], files);
      assert TreeOf(rows, files)[y].file[0] in TreeOf(rows, files)[y].file;
    }
    assert x in rows ==> Linked(rows[x], files);
  }

  lemma ForkedTree(net: Net, rows: Rows, files: Files, p: Blockchain, c: Blockchain, height: nat, h: Header)
    requires AllLinked(rows, files) && p in rows && c !in rows && IsUnknown(TreeOf(rows, files), h)
    ensures var row := ForkRow(p, height, h);
            && AllLinked(rows[c := row], files[row.Path() := [h]])
            && TreeOf(rows[c := row], files[row.Path() := [h]]) == Fork(TreeOf(rows, files), c, p, height, h)
  {
    var row := ForkRow(p, height, h);
    var rows', files' := rows[c := row], files[row.Path() := [h]];
    var t' := TreeOf(rows', files');
    forall x | x in rows'
      ensures Linked(rows'[x], files') && t'[x] == Fork(TreeOf(rows, files), c, p, height, h)[x]
    {
      ForkedNode(net, rows, files, p, c, height, h, x);
    }
  }

  lemma ForkedExact(rows: Rows, files: Files, c: Blockchain, row: Row, file: seq<Header>)
    requires FilesExact(rows, files) && c !in rows
    ensures FilesExact(rows[c := row], files[row.Path() := file])
  {
    var rows', files' := rows[c := row], files[row.Path() := file];
    forall q
      ensures q in files' <==> exists x :: x in rows' && rows'[x].Path() == q
    {
      if q in files {
        var x: Blockchain :| x in rows && rows[x].Path() == q;
        assert rows'[x].Path() == q;
      }
      assert rows'[c].Path() == row.Path();
    }
  }

  lemma ForkedInner(net: Net, rows: Rows, files: Files, chains: map<Hash, Blockchain>, s: Forest, p: Blockchain,
                    c: Blockchain, height: nat, h: Header)
    requires InnerOk(net, rows, files, chains, s.root, rows.Keys).holds && s.tree == TreeOf(rows, files)
    requires Ok(net, s).holds && CanFork(net, s.tree, p, c, height, h).holds && s.tree[p].forkpoint < height
    ensures var row := ForkRow(p, height, h);
            && InnerOk(net, rows[c := row], files[row.Path() := [h]], chains, s.root, rows.Keys).holds
            && Forest(TreeOf(rows[c := row], files[row.Path() := [h]]), s.root) == Forked(net, s, p, c, height, h)
  {
    hide TreeOk, AllLinked, Registered, Content, Follows, FilesExact;
    var row := ForkRow(p, height, h);
    assert Unfold(0);
    assert TreeOf(rows, files).Keys == rows.Keys;
    ForkedTree(net, rows, files, p, c, height, h);
    ForkedExact(rows, files, c, row, [h]);
    ForkedRegister(chains, rows, c, row);
    InnerFrom(net, rows[c := row], files[row.Path() := [h]], chains, rows.Keys, Forked(net, s, p, c, height, h));
  }

  lemma ForkedRegister(chains: map<Hash, Blockchain>, rows: Rows, c: Blockchain, row: Row)
    requires Registered(chains, rows, rows.Keys) && c !in rows
    ensures Registered(chains, rows[c := row], rows.Keys)
  {
  }

  /** Registering the new chain, if the swaps have not done so. */
  lemma RegisterLast(net: Net, rows: Rows, files: Files, chains: map<Hash, Blockchain>, root: Blockchain,
                     known: set<Blockchain>, c: Blockchain)
    requires InnerOk(net, rows, files, chains, root, known).holds && c in rows && rows.Keys - {c} <= known
    ensures InnerOk(net, rows, files, chains[rows[c].id := c], root, rows.Keys).holds
  {
    assert Unfold(0);
    forall x | x in rows && x != c
      ensures rows[x].id != rows[c].id
    {
      PathsApart(rows, files, root, x, c);
    }
    RegisterOne(chains, rows, known, c);
  }

  lemma RegisterOne(chains: map<Hash, Blockchain>, rows: Rows, known: set<Blockchain>, c: Blockchain)
    requires Registered(chains, rows, known) && c in rows && rows.Keys - {c} <= known
    requires forall x :: x in rows && x != c ==> rows[x].id != rows[c].id
    ensures Registered(chains[rows[c].id := c], rows, rows.Keys)
  {
  }

  /** Forking is possible; it leads to `s1`, and swapping from there settles. */
  lemma ForkStarts(net: Net, rows: Rows, files: Files, chains: map<Hash, Blockchain>, s: Forest, p: Blockchain,
                   c: Blockchain,
                   height: nat, h: Header, order: Order)
    returns (s1: Forest)
    requires InnerOk(net, rows, files, chains, s.root, rows.Keys).holds && s.tree == TreeOf(rows, files)
    requires Settled(net, s).holds && CanFork(net, s.tree, p, c, height, h).holds && p in s.tree &&
             s.tree[p].forkpoint < height
    ensures var row := ForkRow(p, height, h);
            && InnerOk(net, rows[c := row], files[row.Path() := [h]], chains, s.root, rows.Keys).holds
            && Forest(TreeOf(rows[c := row], files[row.Path() := [h]]), s.root) == s1
    ensures StepIs(net, s, ForkOff(p, c, height, h), Settling(net, s1, c)).holds
    ensures StepOrderIs(net, s, ForkOff(p, c, height, h), order, Register(SettlingOrder(net, s1, c, order), c)).holds
  {
    ForkOrder(net, s, p, c, height, h, order);
    s1 := Forked(net, s, p, c, height, h);
    ForkedInner(net, rows, files, chains, s, p, c, height, h);
    ForkSettles(net, s, p, c, height, h);
  }

  lemma ForkSettles(net: Net, s: Forest, p: Blockchain, c: Blockchain, height: nat, h: Header)
    requires Settled(net, s).holds && CanFork(net, s.tree, p, c, height, h).holds && p in s.tree &&
             s.tree[p].forkpoint < height
    ensures StepIs(net, s, ForkOff(p, c, height, h), Settling(net, Forked(net, s, p, c, height, h), c)).holds
  {
    StepSettles(net, s, ForkOff(p, c, height, h));
  }
}
