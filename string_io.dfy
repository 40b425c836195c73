// Program input and output kept in strings: input is read one character at a
// time through a cursor, and every character read is echoed to the output.
module StringIOs {

  class StringIO {
    const input: string
    var output: string
    /** How many characters of input have been read. */
    var cursor: nat

    ghost predicate Valid()
      reads this
    {
      cursor <= |input|
    }

    /** A new StringIO has the given input, empty output and reads from the start. */
    constructor (input: string)
      ensures Valid()
      ensures this.input == input && output == "" && cursor == 0
    {
      this.input := input;
      output := "";
      cursor := 0;
    }

    /** Appends str to the output and changes nothing else. */
    method Write(str: string)
      modifies this`output
      ensures output == old(output) + str
    {
      output := output + str;
    }

    /** The same as writing str and then a newline. */
    method WriteLine(str: string)
      modifies this`output
      ensures output == old(output) + str + "\n"
    {
      Write(str);
      Write("\n");
    }

    /** The next input character's code, echoed to the output; -1, with nothing
      * changed, once the input is exhausted. */
    method Read() returns (c: int)
      requires Valid()
      modifies this`output, this`cursor
      ensures Valid()
      ensures old(cursor) == |input| ==> c == -1 && cursor == old(cursor) && output == old(output)
      ensures old(cursor) < |input| ==>
                c == input[old(cursor)] as int && cursor == old(cursor) + 1
                && output == old(output) + [input[old(cursor)]]
    {
      if cursor >= |input| {
        return -1;
      }
      output := output + [input[cursor]];
      c := input[cursor] as int;
      cursor := cursor + 1;
    }
  }
}
