/** The coordinate mapper of chess_board.py: conversion between (file, rank)
    indices and algebraic square names, and the colour of a square. The label
    table belongs to one board instead of being process-wide state. */
module Coordinates {
  import opened Wrappers
  import opened Pieces

  /** The file labels (left to right) and rank labels (top to bottom). */
  datatype Labels = Labels(files: seq<string>, ranks: seq<string>)

  const ALPHA: string := "abcdefghijklmnopqrstuvwxyz"

  /** The table used by 8 x 8 boards: files a..h, ranks 8 down to 1. */
  const DEFAULT_LABELS: Labels := Labels(
    ["a", "b", "c", "d", "e", "f", "g", "h"],
    ["8", "7", "6", "5", "4", "3", "2", "1"])

  function DigitChar(d: nat): char
    requires d < 10
  {
    ('0' as int + d) as char
  }

  /** Decimal rendering of a natural number, as Python's str(): decimal
      digits only, and a leading zero only for zero itself. */
  function NatToString(n: nat): (s: string)
    ensures |s| >= 1
    ensures forall i :: 0 <= i < |s| ==> '0' <= s[i] <= '9'
    ensures s[0] == '0' <==> n == 0
  {
    if n < 10 then [DigitChar(n)] else NatToString(n / 10) + [DigitChar(n % 10)]
  }

  /** The number a string of decimal digits denotes. */
  function DigitsValue(s: string): nat
    requires forall i :: 0 <= i < |s| ==> '0' <= s[i] <= '9'
  {
    if s == [] then 0 else DigitsValue(s[..|s| - 1]) * 10 + (s[|s| - 1] as int - '0' as int)
  }

  /** Reading back the rendering of a number gives that number. */
  lemma {:induction false} NatToStringValue(n: nat)
    ensures DigitsValue(NatToString(n)) == n
  {
    if n >= 10 {
      NatToStringValue(n / 10);
      var s := NatToString(n);
      assert s[..|s| - 1] == NatToString(n / 10);
    }
  }

  /** The label table of a board of any other size: one letter per file and,
      for the ranks, the numbers ranks-1 down to 0. More than 26 files run
      off the alphabet and raise an IndexError. */
  method DefineFileAndRank(files: nat, ranks: nat) returns (r: Result<Labels>)
    ensures r.Err? <==> files > |ALPHA|
    ensures r.Err? ==> r.error == IndexError
    ensures r.Ok? ==> |r.value.files| == files && |r.value.ranks| == ranks
    ensures r.Ok? ==> forall i :: 0 <= i < files ==> r.value.files[i] == [ALPHA[i]]
    ensures r.Ok? ==> forall i :: 0 <= i < ranks ==> r.value.ranks[i] == NatToString(ranks - 1 - i)
  {
    var fileList: seq<string> := [];
    var rankList: seq<string> := [];
    for file := 0 to files
      invariant |fileList| == file && file <= |ALPHA|
      invariant forall i :: 0 <= i < file ==> fileList[i] == [ALPHA[i]]
    {
      if file >= |ALPHA| {
        return Err(IndexError);
      }
      fileList := fileList + [[ALPHA[file]]];
    }
    for k := 0 to ranks
      invariant |rankList| == k
      invariant forall i :: 0 <= i < k ==> rankList[i] == NatToString(ranks - 1 - i)
    {
      var name := NatToString(ranks - 1 - k);
      rankList := rankList + [name];
    }
    return Ok(Labels(fileList, rankList));
  }

  /** The algebraic name of a square: its file label followed by its rank label. */
  function ToAlgebraic(labels: Labels, file: int, rank: int): string
    requires 0 <= file < |labels.files| && 0 <= rank < |labels.ranks|
  {
    labels.files[file] + labels.ranks[rank]
  }

  /** The first position of x in s, as Python's index(). */
  function Find(s: seq<string>, x: string): (r: Option<nat>)
    ensures r.Some? ==> r.value < |s| && s[r.value] == x && forall j :: 0 <= j < r.value ==> s[j] != x
    ensures r.None? ==> forall j :: 0 <= j < |s| ==> s[j] != x
  {
    if s == [] then None
    else if s[0] == x then Some(0)
    else match Find(s[1..], x)
      case None => None
      case Some(i) => Some(i + 1)
  }

  /** Reads the file from the first character and the rank from the second:
      an IndexError when a character is missing, a ValueError when a label is
      unknown; anything after the second character is ignored. */
  function FromAlgebraic(labels: Labels, s: string): Result<Coord> {
    if |s| == 0 then Err(IndexError)
    else match Find(labels.files, [s[0]])
      case None => Err(ValueError)
      case Some(f) =>
        if |s| == 1 then Err(IndexError)
        else match Find(labels.ranks, [s[1]])
          case None => Err(ValueError)
          case Some(r) => Ok((f, r))
  }

  /** Labels of one character each, distinct within the files and within the ranks. */
  ghost predicate SingleCharLabels(labels: Labels) {
    (forall i :: 0 <= i < |labels.files| ==> |labels.files[i]| == 1) &&
    (forall i :: 0 <= i < |labels.ranks| ==> |labels.ranks[i]| == 1) &&
    (forall i, j :: 0 <= i < j < |labels.files| ==> labels.files[i] != labels.files[j]) &&
    (forall i, j :: 0 <= i < j < |labels.ranks| ==> labels.ranks[i] != labels.ranks[j])
  }

  /** Converting a square to its name and back gives the square again. */
  lemma AlgebraicRoundTrip(labels: Labels, file: int, rank: int)
    requires SingleCharLabels(labels)
    requires 0 <= file < |labels.files| && 0 <= rank < |labels.ranks|
    ensures FromAlgebraic(labels, ToAlgebraic(labels, file, rank)) == Ok((file, rank))
  {
    var s := ToAlgebraic(labels, file, rank);
    assert [s[0]] == labels.files[file];
    assert [s[1]] == labels.ranks[rank];
  }

  /** A two-character name that parses names the square it parses to. */
  lemma ComputerRoundTrip(labels: Labels, s: string)
    requires SingleCharLabels(labels)
    requires |s| == 2 && FromAlgebraic(labels, s).Ok?
    ensures var c := FromAlgebraic(labels, s).value;
      0 <= c.0 < |labels.files| && 0 <= c.1 < |labels.ranks| && ToAlgebraic(labels, c.0, c.1) == s
  {
    var c := FromAlgebraic(labels, s).value;
    assert labels.files[c.0] == [s[0]];
    assert labels.ranks[c.1] == [s[1]];
    assert s == [s[0]] + [s[1]];
  }

  /** The 8 x 8 table has one-character labels, so names round-trip on it. */
  lemma DefaultLabelsSingleChar()
    ensures SingleCharLabels(DEFAULT_LABELS)
    ensures |DEFAULT_LABELS.files| == 8 && |DEFAULT_LABELS.ranks| == 8
    ensures ToAlgebraic(DEFAULT_LABELS, 0, 0) == "a8" && ToAlgebraic(DEFAULT_LABELS, 7, 7) == "h1"
  {
    var labels := DEFAULT_LABELS;
    AlphaCodes();
    forall i | 0 <= i < 8
      ensures labels.files[i] == [ALPHA[i]] && labels.ranks[i] == [DigitChar(8 - i)]
    {
    }
    forall i, j | 0 <= i < j < 8
      ensures labels.files[i] != labels.files[j] && labels.ranks[i] != labels.ranks[j]
    {
      assert labels.files[i][0] != labels.files[j][0];
      assert labels.ranks[i][0] != labels.ranks[j][0];
    }
  }

  /** The letters are consecutive character codes from 'a'. */
  lemma AlphaCodes()
    ensures forall i :: 0 <= i < |ALPHA| ==> ALPHA[i] as int == 'a' as int + i
  {
  }

  /** The generated table of a board of at most 26 files and 10 ranks has
      one-character labels, so names round-trip on it too. */
  lemma DefinedLabelsSingleChar(labels: Labels, files: nat, ranks: nat)
    requires files <= |ALPHA| && ranks <= 10
    requires |labels.files| == files && |labels.ranks| == ranks
    requires forall i :: 0 <= i < files ==> labels.files[i] == [ALPHA[i]]
    requires forall i :: 0 <= i < ranks ==> labels.ranks[i] == NatToString(ranks - 1 - i)
    ensures SingleCharLabels(labels)
  {
    forall i | 0 <= i < ranks
      ensures labels.ranks[i] == [DigitChar(ranks - 1 - i)]
    {
    }
    forall i, j | 0 <= i < j < ranks
      ensures labels.ranks[i] != labels.ranks[j]
    {
      assert labels.ranks[i][0] != labels.ranks[j][0];
    }
    AlphaCodes();
    forall i, j | 0 <= i < j < files
      ensures labels.files[i] != labels.files[j]
    {
      assert labels.files[i][0] != labels.files[j][0];
    }
  }

  /** "light" exactly when file and rank have the same parity. */
  function GetSquareColor(file: int, rank: int): string {
    if rank % 2 == file % 2 then "light" else "dark"
  }

  /** Squares one step apart along a file or a rank differ in colour; the
      corners of a long diagonal agree. */
  lemma NeighbourColors(file: int, rank: int)
    ensures GetSquareColor(file, rank) != GetSquareColor(file + 1, rank)
    ensures GetSquareColor(file, rank) != GetSquareColor(file, rank + 1)
    ensures GetSquareColor(file, rank) == GetSquareColor(file + 1, rank + 1)
    ensures GetSquareColor(0, 0) == GetSquareColor(7, 7) == "light"
  {
  }
}
