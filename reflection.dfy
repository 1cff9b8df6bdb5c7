/**
 * The facts that Java reflection reports about one interface method, as plain values,
 * and the exceptions that compiling it can raise.
 */
module Reflection {
  import opened Wrappers

  /** A Java type as `java.lang.reflect.Type` exposes it. */
  datatype JType =
    | Class(name: string, assignableToCallBack: bool)       // a java.lang.Class; whether CallBack.class.isAssignableFrom it
    | Parameterized(raw: JType, args: seq<JType>)            // a ParameterizedType: getRawType, getActualTypeArguments
    | Wildcard(upperBounds: seq<JType>)                      // a WildcardType: getUpperBounds
    | OtherType(name: string)                                // a type variable, a generic array type, ...

  /**
   * An annotation on the method itself. `Marked` annotation types carry a @RestMethod
   * meta-annotation naming the HTTP verb; their `value()` is None when it cannot be read
   * as a String.
   */
  datatype MethodAnnotation =
    | Marked(simpleName: string, verb: string, value: Option<string>)
    | Unmarked(simpleName: string)

  /** An annotation on one parameter slot. */
  datatype ParamAnnotation =
    | Path(name: string)
    | Query(name: string)
    | Header(name: string)
    | Body
    | Other(simpleName: string)

  /**
   * One reflected interface method: the simple name of its declaring class, its name,
   * getAnnotations(), getGenericParameterTypes() and getParameterAnnotations().
   */
  datatype MethodSig = MethodSig(
    declaringClass: string,
    name: string,
    annotations: seq<MethodAnnotation>,
    parameterTypes: seq<JType>,
    parameterAnnotations: seq<seq<ParamAnnotation>>)

  /** The exceptions compilation can throw; a message of None is a JVM-generated one. */
  datatype Failure =
    | NullPointer(nullMessage: Option<string>)
    | IllegalArgument(message: string)
    | IndexOutOfBounds(index: int, length: int)
}
