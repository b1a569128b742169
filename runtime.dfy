/** The run-time object model: a class value, which is callable, and its instances. */
module Runtime {
  import opened Tokens

  /** A class: a name fixed at construction. */
  class LucaClass {
    const name: string

    constructor(name: string)
      ensures this.name == name
    {
      this.name := name;
    }

    /** Calling a class makes a new instance of it; the arguments play no part. */
    method Call(arguments: seq<Value>) returns (instance: LucaInstance)
      ensures fresh(instance) && instance.klass == this
    {
      instance := new LucaInstance(this);
    }

    /** A class takes no arguments. */
    function Arity(): (n: nat)
      ensures n == 0
    {
      0
    }

    /** A class prints as its name. */
    function ToString(): (s: string)
      ensures s == name
    {
      name
    }
  }

  /** An instance: the class it was made from, fixed at construction. */
  class LucaInstance {
    const klass: LucaClass

    constructor(klass: LucaClass)
      ensures this.klass == klass
    {
      this.klass := klass;
    }

    /** An instance prints as its class's name followed by " instance". */
    function ToString(): (s: string)
      ensures s == klass.name + " instance"
    {
      klass.name + " instance"
    }
  }

  /** Instances of one class print alike. */
  lemma SameClassSameText(a: LucaInstance, b: LucaInstance)
    requires a.klass == b.klass
    ensures a.ToString() == b.ToString()
  {
  }

  /** An instance's text is its class's text with " instance" appended, so the class's
      text can be read back from it. */
  lemma InstanceTextExtendsClassText(i: LucaInstance)
    ensures i.ToString() == i.klass.ToString() + " instance"
    ensures i.ToString()[..|i.klass.ToString()|] == i.klass.ToString()
  {
  }

  /** Each call makes a distinct instance, and both print as instances of the class. */
  method CallTwice(c: LucaClass) returns (a: LucaInstance, b: LucaInstance)
    ensures a != b && a.klass == c && b.klass == c
    ensures a.ToString() == b.ToString() == c.ToString() + " instance"
  {
    a := c.Call([]);
    b := c.Call([Num(1.0)]);
    InstanceTextExtendsClassText(a);
    SameClassSameText(a, b);
  }
}
