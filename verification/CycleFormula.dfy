// The reference cycle count of a tiled matrix product: a triple loop over
// 64 x 64 tiles, and its closed form.
module CycleFormula {
  import opened Arithmetic
  import opened Memory

  function Tiles(n: nat): nat {
    (n + 63) / 64
  }

  // Reading the dimensions; per tile triple two loads, the rows of the tile and
  // two cycles of latency; per output tile its rows and one more to store.
  function ClosedForm(M: nat, K: nat, N: nat): int {
    1 + Tiles(M) * Tiles(N) * (K + 4 * Tiles(K)) + Tiles(N) * (M + Tiles(M))
  }

  // Without a reduction tile nothing is stored either.
  function Cycles(M: nat, K: nat, N: nat): int {
    if K == 0 then 1 else ClosedForm(M, K, N)
  }

  // The rows of the first t tiles of a dimension.
  lemma TileRows(t: nat, n: nat)
    requires t < Tiles(n)
    ensures Min(64 * (t + 1), n) == Min(64 * t, n) + Min(64, n - t * 64)
    ensures 0 < n - t * 64 && Min(64 * Tiles(n), n) == n
  {
  }

  method ExpectedCycles(M: nat, K: nat, N: nat) returns (total: int)
    ensures total == Cycles(M, K, N)
  {
    hide ClosedForm, Min;
    var mTiles, nTiles, kTiles := Tiles(M), Tiles(N), Tiles(K);
    ghost var column := if kTiles == 0 then 0 else K + 4 * kTiles + 1;
    total := 1;
    WholeDimension(M);
    WholeDimension(K);
    assert RowTiles(0, M, column, kTiles > 0) == 0;
    for mt := 0 to mTiles
      invariant total == 1 + nTiles * RowTiles(mt, M, column, kTiles > 0)
    {
      TileRows(mt, M);
      var mCur := Min(64, M - mt * 64);
      ghost var before := total;
      for nt := 0 to nTiles
        invariant total == before + nt * (column + if kTiles > 0 then mCur else 0)
      {
        ghost var start := total;
        for kt := 0 to kTiles
          invariant total == start + 4 * kt + Min(64 * kt, K) + (if kt == kTiles && kTiles > 0 then mCur + 1 else 0)
        {
          TileRows(kt, K);
          var kCur := Min(64, K - kt * 64);
          total := total + 1 + 1 + (kCur + 2);
          if kt == kTiles - 1 {
            total := total + mCur + 1;
          }
        }
        NextTile(nt, column + if kTiles > 0 then mCur else 0);
      }
      RowTilesStep(mt, M, column, kTiles > 0);
      Distribute(nTiles, RowTiles(mt, M, column, kTiles > 0), column + if kTiles > 0 then mCur else 0);
    }
    RowTilesTotal(M, K, N);
  }

  // What the first mt rows of tiles cost per column of tiles.
  ghost function RowTiles(mt: nat, M: nat, column: int, stored: bool): int {
    mt * column + if stored then Min(64 * mt, M) else 0
  }

  lemma NextTile(t: nat, cost: int)
    ensures (t + 1) * cost == t * cost + cost
  {
  }

  lemma Distribute(a: int, b: int, c: int)
    ensures a * (b + c) == a * b + a * c
  {
  }

  lemma WholeDimension(n: nat)
    ensures Min(64 * Tiles(n), n) == n && Min(64 * 0, n) == 0
  {
  }

  lemma RowTilesStep(mt: nat, M: nat, column: int, stored: bool)
    requires mt < Tiles(M)
    ensures RowTiles(mt + 1, M, column, stored)
         == RowTiles(mt, M, column, stored) + column + if stored then Min(64, M - mt * 64) else 0
  {
    TileRows(mt, M);
    NextTile(mt, column);
  }

  lemma RowTilesTotal(M: nat, K: nat, N: nat)
    ensures var column := if Tiles(K) == 0 then 0 else K + 4 * Tiles(K) + 1;
            1 + Tiles(N) * RowTiles(Tiles(M), M, column, Tiles(K) > 0) == Cycles(M, K, N)
  {
    WholeDimension(M);
    var mt, nt, c := Tiles(M), Tiles(N), K + 4 * Tiles(K);
    if K > 0 {
      assert mt * (c + 1) == mt * c + mt;
      Distribute(nt, mt * c, mt + M);
      assert nt * (mt * c) == mt * nt * c;
    } else {
      assert RowTiles(mt, M, 0, false) == 0;
    }
  }

  // The closed form is the loop's result for every shape with a reduction, and
  // otherwise only where there is nothing to compute.
  lemma ClosedFormExactly(M: nat, K: nat, N: nat)
    ensures Cycles(M, K, N) == ClosedForm(M, K, N) <==> K > 0 || M == 0 || N == 0
  {
    if K == 0 {
      assert Tiles(M) * Tiles(N) * 0 == 0;
      MulSign(Tiles(N), M + Tiles(M));
      if M == 0 || N == 0 {
        assert Tiles(N) * (M + Tiles(M)) == 0;
      }
    }
  }

  // No dimension can grow and the count shrink; a longer reduction of a
  // nonempty product always costs more.
  lemma Monotone(M: nat, K: nat, N: nat, M': nat, K': nat, N': nat)
    requires M <= M' && K <= K' && N <= N'
    ensures Cycles(M, K, N) <= Cycles(M', K', N')
    ensures K < K' && M > 0 && N > 0 ==> Cycles(M, K, N) < Cycles(M', K', N')
  {
    var p, p' := Tiles(M) * Tiles(N), Tiles(M') * Tiles(N');
    var c, c' := K + 4 * Tiles(K), K' + 4 * Tiles(K');
    Product(Tiles(M), Tiles(M'), Tiles(N), Tiles(N'));
    Product(p, p', c, c');
    Product(Tiles(N), Tiles(N'), M + Tiles(M), M' + Tiles(M'));
    if K < K' && M > 0 && N > 0 {
      MulSign(Tiles(M), Tiles(N));
      MulGap(c, c', p);
      MulMono(p, p', c');
      assert p * c == c * p && p * c' == c' * p;
      MulSign(Tiles(N), M + Tiles(M));
    }
  }

  lemma Product(a: nat, a': nat, b: nat, b': nat)
    requires a <= a' && b <= b'
    ensures 0 <= a * b <= a' * b'
  {
    MulSign(a, b);
    MulMono(a, a', b);
    MulMono(b, b', a');
    assert a' * b == b * a' && a' * b' == b' * a';
  }

  // One tile costs its reduction, its rows and six cycles.
  lemma OneTile(M: nat, K: nat, N: nat)
    requires 1 <= M <= 64 && 1 <= K <= 64 && 1 <= N <= 64
    ensures Cycles(M, K, N) == K + M + 6
  {
    assert Tiles(M) == 1 && Tiles(K) == 1 && Tiles(N) == 1;
  }

  // Beyond the one cycle for the dimensions the count is a sum over tiles: 64 more
  // rows, or columns, cost what they cost alone, and 64 more of a reduction cost 68
  // cycles for every tile of the output.
  lemma TilesAddUp(M: nat, K: nat, N: nat)
    ensures Cycles(M + 64, K, N) - 1 == (Cycles(M, K, N) - 1) + (Cycles(64, K, N) - 1)
    ensures Cycles(M, K, N + 64) - 1 == (Cycles(M, K, N) - 1) + (Cycles(M, K, 64) - 1)
    ensures K > 0 ==> Cycles(M, K + 64, N) == Cycles(M, K, N) + 68 * (((M + 63) / 64) * ((N + 63) / 64))
  {
    var m, n, c := Tiles(M), Tiles(N), K + 4 * Tiles(K);
    assert Tiles(M + 64) == m + 1 && Tiles(N + 64) == n + 1 && Tiles(K + 64) == Tiles(K) + 1 && Tiles(64) == 1;
    assert (m + 1) * n == m * n + n && m * (n + 1) == m * n + m;
    NextProduct(m * n, n, c);
    NextProduct(m * n, m, c);
    assert n * (M + 64 + (m + 1)) == n * (M + m) + n * 65;
    assert (n + 1) * (M + m) == n * (M + m) + (M + m);
    assert m * n * (c + 68) == m * n * c + 68 * (m * n);
  }

  lemma NextProduct(a: int, b: int, c: int)
    ensures (a + b) * c == a * c + b * c
  {
  }
}
