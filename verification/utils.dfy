/** Small helpers: paging arithmetic, membership in a list, required-field checks. */
module Utils {
  import opened Common
  import opened Errors

  /** A page number below 1 means the first page. */
  function EffectivePage(page: int): int { if page < 1 then 1 else page }

  /** A page size below 1 means the default size of 10. */
  function EffectiveLimit(limit: int): int { if limit < 1 then 10 else limit }

  /**
   * The offset of the requested page: the number of items on the pages before
   * it, with page and limit first brought into range. hasNext says whether any
   * item lies beyond the requested page.
   */
  method Paginate(page: int, limit: int, total: int) returns (offset: int, hasNext: bool)
    ensures offset >= 0
    ensures offset == (EffectivePage(page) - 1) * EffectiveLimit(limit)
    ensures hasNext <==> offset + EffectiveLimit(limit) < total
    ensures page >= 1 && limit >= 1 ==> offset == (page - 1) * limit
  {
    var p, l := page, limit;
    if p < 1 {
      p := 1;
    }
    if l < 1 {
      l := 10;
    }
    NonNegativeProduct(p - 1, l);
    offset := (p - 1) * l;
    hasNext := offset + l < total;
  }

  lemma NonNegativeProduct(a: nat, b: nat)
    ensures a * b >= 0
  {
  }

  /** Whether some element equals the item; stops at the first match. */
  method Contains(slice: seq<string>, item: string) returns (found: bool)
    ensures found <==> item in slice
  {
    for i := 0 to |slice|
      invariant forall k :: 0 <= k < i ==> slice[k] != item
    {
      if slice[i] == item {
        return true;
      }
    }
    return false;
  }

  /** The characters the system's whitespace test accepts. */
  predicate IsSpace(c: char) {
    var n := c as int;
    n == 0x09 || n == 0x0A || n == 0x0B || n == 0x0C || n == 0x0D || n == 0x20 || n == 0x85 || n == 0xA0
    || n == 0x1680 || (0x2000 <= n <= 0x200A) || n == 0x2028 || n == 0x2029 || n == 0x202F
    || n == 0x205F || n == 0x3000
  }

  predicate AllSpace(s: string) {
    forall i :: 0 <= i < |s| ==> IsSpace(s[i])
  }

  function TrimLeft(s: string): string {
    if s != [] && IsSpace(s[0]) then TrimLeft(s[1..]) else s
  }

  function TrimRight(s: string): string {
    if s != [] && IsSpace(s[|s| - 1]) then TrimRight(s[..|s| - 1]) else s
  }

  /** The string without leading and trailing whitespace. */
  function TrimSpace(s: string): string {
    TrimRight(TrimLeft(s))
  }

  /** A value that is empty once trimmed. */
  predicate IsBlank(value: string) {
    TrimSpace(value) == ""
  }

  lemma {:induction false} TrimLeftIsEmptyIffAllSpace(s: string)
    ensures TrimLeft(s) == [] <==> AllSpace(s)
    ensures TrimLeft(s) != [] ==> !IsSpace(TrimLeft(s)[0])
  {
    if s != [] && IsSpace(s[0]) {
      TrimLeftIsEmptyIffAllSpace(s[1..]);
      if AllSpace(s[1..]) {
        forall i | 0 <= i < |s| ensures IsSpace(s[i]) {
          if i > 0 { assert s[i] == s[1..][i - 1]; }
        }
      }
    }
  }

  lemma {:induction false} TrimRightIsEmptyIffAllSpace(s: string)
    ensures TrimRight(s) == [] <==> AllSpace(s)
  {
    if s != [] && IsSpace(s[|s| - 1]) {
      TrimRightIsEmptyIffAllSpace(s[..|s| - 1]);
      if AllSpace(s[..|s| - 1]) {
        forall i | 0 <= i < |s| ensures IsSpace(s[i]) {
          if i < |s| - 1 { assert s[i] == s[..|s| - 1][i]; }
        }
      }
    }
  }

  /** A value is blank exactly when every one of its characters is whitespace. */
  lemma BlankIffAllSpace(s: string)
    ensures IsBlank(s) <==> AllSpace(s)
  {
    TrimLeftIsEmptyIffAllSpace(s);
    TrimRightIsEmptyIffAllSpace(TrimLeft(s));
  }

  /** The fields of the map whose values are blank. */
  ghost function BlankFields(fields: map<string, string>): set<string> {
    set f | f in fields && IsBlank(fields[f])
  }

  /**
   * No error when every value is non-blank; otherwise an error naming exactly
   * the fields with blank values (gathered in no particular order, so as a set).
   */
  method ValidateRequired(fields: map<string, string>) returns (err: Option<Error>)
    ensures err.None? <==> forall f :: f in fields ==> !IsBlank(fields[f])
    ensures err.Some? ==> err.value == MissingFields(BlankFields(fields)) && BlankFields(fields) != {}
  {
    var missing: set<string> := {};
    var remaining := fields.Keys;
    while remaining != {}
      invariant remaining <= fields.Keys
      invariant missing == set f | f in fields.Keys - remaining && IsBlank(fields[f])
      decreases remaining
    {
      var f :| f in remaining;
      if TrimSpace(fields[f]) == "" {
        missing := missing + {f};
      }
      remaining := remaining - {f};
    }
    assert missing == BlankFields(fields);
    if missing != {} {
      return Some(MissingFields(missing));
    }
    forall f | f in fields ensures !IsBlank(fields[f]) {
      assert f !in missing;
    }
    return None;
  }
}
