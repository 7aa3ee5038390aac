/** The bot's own error classes: `Error`, `RangeError` and `TypeError` subclasses that
    carry a code and a message built from a fixed template per code. */
module SentinelErrors {
  import opened Text

  /** The built-in class a SentinelError extends. */
  datatype BaseClass = ErrorBase | RangeErrorBase | TypeErrorBase

  datatype Code = InvalidType | PropertyDoesntExist

  datatype SentinelError = SentinelError(base: BaseClass, code: Code, message: string)

  function BaseName(b: BaseClass): string {
    match b
    case ErrorBase => "Error"
    case RangeErrorBase => "RangeError"
    case TypeErrorBase => "TypeError"
  }

  function CodeName(c: Code): string {
    match c
    case InvalidType => "INVALID_TYPE"
    case PropertyDoesntExist => "PROPERTY_DOESNT_EXIST"
  }

  /** `new X('INVALID_TYPE', param, expected)`. */
  function NewInvalidType(base: BaseClass, param: string, expected: string): (e: SentinelError)
    ensures e.base == base && e.code == InvalidType
    ensures e.message == "Supplied " + param + " is not " + expected
  {
    SentinelError(base, InvalidType, "Supplied " + param + " is not " + expected)
  }

  /** `new X('PROPERTY_DOESNT_EXIST', path, current)`. */
  function NewPropertyDoesntExist(base: BaseClass, path: seq<string>, current: string): (e: SentinelError)
    ensures e.base == base && e.code == PropertyDoesntExist
    ensures e.message == "Property " + current + " doesn't exist on " + Join(path, ".")
  {
    SentinelError(base, PropertyDoesntExist, "Property " + current + " doesn't exist on " + Join(path, "."))
  }

  /** The `name` getter: the base class name followed by the code in brackets. */
  function Name(e: SentinelError): string {
    BaseName(e.base) + " [" + CodeName(e.code) + "]"
  }

  /** The name tells the base class and the code apart. */
  lemma NameDeterminesClassAndCode(a: SentinelError, b: SentinelError)
    requires Name(a) == Name(b)
    ensures a.base == b.base && a.code == b.code
  {
    var na, nb := Name(a), Name(b);
    assert na[0] == nb[0];
    assert |na| == |nb|;
  }

  /** The trailing path of a PROPERTY_DOESNT_EXIST message splits back into the path,
      when no element contains a dot. */
  lemma {:induction false} PropertyPathRecoverable(base: BaseClass, path: seq<string>, current: string)
    requires |path| >= 1
    requires forall k :: 0 <= k < |path| ==> '.' !in path[k]
    ensures var e := NewPropertyDoesntExist(base, path, current);
      var head := "Property " + current + " doesn't exist on ";
      |head| <= |e.message| && e.message[..|head|] == head && Split(e.message[|head|..], '.') == path
  {
    var head := "Property " + current + " doesn't exist on ";
    var e := NewPropertyDoesntExist(base, path, current);
    assert e.message == head + Join(path, ".");
    assert e.message[|head|..] == Join(path, ".");
    assert "." == ['.'];
    SplitJoin(path, '.');
  }
}
