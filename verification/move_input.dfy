/**
 * Reading a human move such as `b3`: a lower-case row letter (`a` is the
 * first row) followed by a column digit (`1` is the first column),
 * naming an empty cell. Input is ASCII text.
 */
module MoveInput {
  import opened Board

  /** Why a text is refused: it names no cell of the grid, or it names a taken one. */
  datatype MoveError = Malformed | Taken

  datatype Result<T> = Ok(value: T) | Err(error: MoveError)

  predicate IsLower(c: char) { 'a' <= c <= 'z' }

  predicate IsDigit(c: char) { '0' <= c <= '9' }

  /** The text naming cell `m`: the row letter, then the 1-based column digit. */
  function MoveText(m: Move): (t: string)
    requires 0 <= m.0 < 26 && 0 <= m.1 < 9
    ensures |t| == 2 && IsLower(t[0]) && IsDigit(t[1])
  {
    [('a' as int + m.0) as char, ('1' as int + m.1) as char]
  }

  /**
   * The cell a text names. A text is malformed unless it has two
   * characters, a lower-case letter within the first N letters and a
   * digit from 1 to N; a well-formed text naming an occupied cell is
   * taken.
   */
  function ParseMove(text: string, g: Grid): (r: Result<Move>)
    requires IsSquare(g)
    ensures r.Ok? ==> InRange(g, r.value) && g[r.value.0][r.value.1] == Empty
    ensures r.Ok? ==> r.value.0 < 26 && r.value.1 < 9 && text == MoveText(r.value)
    ensures r == Err(Taken) <==>
              exists m :: InRange(g, m) && m.0 < 26 && m.1 < 9 && text == MoveText(m) && g[m.0][m.1] != Empty
  {
    var n := |g|;
    if |text| != 2 then Err(Malformed)
    else if !IsLower(text[0]) || !(text[0] as int - 'a' as int < n) then Err(Malformed)
    else if !IsDigit(text[1]) || !(1 <= text[1] as int - '0' as int <= n) then Err(Malformed)
    else
      var m := (text[0] as int - 'a' as int, text[1] as int - '0' as int - 1);
      assert text == MoveText(m);
      if g[m.0][m.1] != Empty then Err(Taken) else Ok(m)
  }

  /** Every empty cell a row letter and a column digit can name is accepted as itself. */
  lemma ParseMoveText(g: Grid, m: Move)
    requires IsSquare(g) && InRange(g, m) && m.0 < 26 && m.1 < 9
    requires g[m.0][m.1] == Empty
    ensures ParseMove(MoveText(m), g) == Ok(m)
  {
  }
}
